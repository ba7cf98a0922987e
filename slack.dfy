/** Slack messages (src/slack.rs): a list of markdown blocks built by appending,
    links with Slack's entity escaping, and the payload posted to a hook. */
module Slack {
  import opened Wrappers
  import opened Urls

  /** One entry of a message's block list. */
  datatype Block = Block(typ: string, emoji: bool, verbatim: bool, text: string)

  /** The block `append_markdown` pushes: verbatim markdown, no emoji rendering. */
  function MarkdownBlock(markdown: string): Block
  {
    Block("mrkdwn", false, true, markdown)
  }

  /** One markdown block per item, rendered by `line`, appended in the order of
      the items (a loop of `append_markdown` calls). */
  function MarkdownLines<T>(items: seq<T>, line: T -> string): seq<Block>
    decreases |items|
  {
    if items == [] then []
    else MarkdownLines(items[..|items| - 1], line) + [MarkdownBlock(line(items[|items| - 1]))]
  }

  /** The k-th block is the rendering of the k-th item. */
  lemma {:induction false} MarkdownLinesAt<T>(items: seq<T>, line: T -> string, k: nat)
    requires k < |items|
    ensures |MarkdownLines(items, line)| == |items|
    ensures MarkdownLines(items, line)[k] == MarkdownBlock(line(items[k]))
    decreases |items|
  {
    var init := items[..|items| - 1];
    if k < |items| - 1 {
      MarkdownLinesAt(init, line, k);
    } else if init != [] {
      MarkdownLinesAt(init, line, 0);
    }
  }

  /** One more item appends one more block. */
  lemma MarkdownLinesSnoc<T>(items: seq<T>, line: T -> string, i: nat)
    requires i < |items|
    ensures MarkdownLines(items[..i + 1], line) ==
      MarkdownLines(items[..i], line) + [MarkdownBlock(line(items[i]))]
  {
    assert items[..i + 1][..i] == items[..i];
  }

  /** The texts of the blocks, in order, with no separator (`format("")`). */
  function Flatten(blocks: seq<Block>): string
    decreases |blocks|
  {
    if blocks == [] then "" else blocks[0].text + Flatten(blocks[1..])
  }

  /** Flattening respects concatenation of block lists. */
  lemma {:induction false} FlattenAppend(a: seq<Block>, b: seq<Block>)
    ensures Flatten(a + b) == Flatten(a) + Flatten(b)
    decreases |a|
  {
    if a == [] {
      assert a + b == b;
    } else {
      assert (a + b)[0] == a[0];
      assert (a + b)[1..] == a[1..] + b;
      FlattenAppend(a[1..], b);
    }
  }

  // ---------------------------------------------------------------------------
  // Escaping of link text.
  // ---------------------------------------------------------------------------

  /** The replacement of one character of link text. */
  function EscapeChar(c: char): string
  {
    if c == '&' then "&amp;"
    else if c == '<' then "&lt;"
    else if c == '>' then "&gt;"
    else [c]
  }

  /** Link text with `&`, `<` and `>` replaced by their entities, in order. */
  function Escape(t: string): string
    decreases |t|
  {
    if t == [] then "" else EscapeChar(t[0]) + Escape(t[1..])
  }

  /** Decodes the three entities from left to right; any other character is kept. */
  function Unescape(s: string): string
    decreases |s|
  {
    if s == [] then ""
    else if "&amp;" <= s then "&" + Unescape(s[5..])
    else if "&lt;" <= s then "<" + Unescape(s[4..])
    else if "&gt;" <= s then ">" + Unescape(s[4..])
    else [s[0]] + Unescape(s[1..])
  }

  /** Escaping loses nothing: decoding the entities gives back the text. */
  lemma {:induction false} UnescapeEscape(t: string)
    ensures Unescape(Escape(t)) == t
    decreases |t|
  {
    if t != [] {
      var rest := Escape(t[1..]);
      UnescapeEscape(t[1..]);
      var e := EscapeChar(t[0]) + rest;
      assert Escape(t) == e;
      if t[0] == '&' {
        assert "&amp;" <= e && e[5..] == rest;
      } else if t[0] == '<' {
        assert !("&amp;" <= e) by { assert e[1] == 'l'; }
        assert "&lt;" <= e && e[4..] == rest;
      } else if t[0] == '>' {
        assert !("&amp;" <= e) by { assert e[1] == 'g'; }
        assert !("&lt;" <= e) by { assert e[1] == 'g'; }
        assert "&gt;" <= e && e[4..] == rest;
      } else {
        assert e[0] == t[0] && e[1..] == rest;
      }
      assert [t[0]] + t[1..] == t;
    }
  }

  /** Escaped text holds no angle bracket, so it cannot close or split a Slack link. */
  lemma {:induction false} EscapeHasNoBrackets(t: string)
    ensures '<' !in Escape(t) && '>' !in Escape(t)
    decreases |t|
  {
    if t != [] {
      var head := EscapeChar(t[0]);
      EscapeHasNoBrackets(t[1..]);
      assert '<' !in head && '>' !in head;
      assert Escape(t) == head + Escape(t[1..]);
    }
  }

  /** Text without `&`, `<` or `>` is copied unchanged. */
  lemma {:induction false} EscapeKeepsPlainText(t: string)
    requires '&' !in t && '<' !in t && '>' !in t
    ensures Escape(t) == t
    decreases |t|
  {
    if t != [] {
      var c := t[0];
      assert c in t;
      assert EscapeChar(c) == [c];
      assert '&' !in t[1..] && '<' !in t[1..] && '>' !in t[1..] by {
        assert forall x :: x in t[1..] ==> x in t;
      }
      EscapeKeepsPlainText(t[1..]);
      assert [c] + t[1..] == t;
    }
  }

  /** A tag-like text: `<x>&` with `x` plain becomes `&lt;x&gt;&amp;`. */
  lemma EscapeTagged(x: string)
    requires '&' !in x && '<' !in x && '>' !in x
    ensures Escape(['<'] + x + ['>', '&']) == "&lt;" + x + "&gt;&amp;"
  {
    var tail := ['>', '&'];
    var t := ['<'] + x + tail;
    assert Escape(t) == "&lt;" + Escape(x + tail) by {
      assert t[0] == '<' && t[1..] == x + tail;
    }
    assert Escape(tail) == "&gt;&amp;" by {
      assert tail[1..] == ['&'];
      EscapeSingle('&');
    }
    EscapeAppend(x, tail);
    EscapeKeepsPlainText(x);
    assert "&lt;" + (x + "&gt;&amp;") == "&lt;" + x + "&gt;&amp;";
  }

  /** `<script>&` becomes `&lt;script&gt;&amp;`. */
  lemma EscapeExample(t: string)
    requires t == "<script>&"
    ensures Escape(t) == "&lt;script&gt;&amp;"
  {
    var x := "script";
    assert t == ['<'] + x + ['>', '&'];
    EscapeTagged(x);
    assert "&lt;" + x + "&gt;&amp;" == "&lt;script&gt;&amp;";
  }

  lemma EscapeSingle(c: char)
    ensures Escape([c]) == EscapeChar(c)
  {
    assert [c][1..] == [];
  }

  /** Escaping respects concatenation. */
  lemma {:induction false} EscapeAppend(a: string, b: string)
    ensures Escape(a + b) == Escape(a) + Escape(b)
    decreases |a|
  {
    if a == [] {
      assert a + b == b;
    } else {
      assert (a + b)[0] == a[0];
      assert (a + b)[1..] == a[1..] + b;
      EscapeAppend(a[1..], b);
    }
  }

  /** The link `link` renders: markdown `[url](url)` without text, Slack's
      `<url|text>` with escaped text. */
  function LinkText(url: Url, text: Option<string>): string
  {
    match text
    case None => "[" + url.href + "](" + url.href + ")"
    case Some(t) => "<" + url.href + "|" + Escape(t) + ">"
  }

  /** A link with text is `<url|…>` where the part between the bar and the closing
      bracket holds no angle bracket and decodes back to the text as given. */
  lemma LinkTextDecodes(url: Url, t: string)
    ensures var r := LinkText(url, Some(t));
      var n := |url.href| + 2;
      && |r| > n
      && r[..n] == "<" + url.href + "|"
      && r[|r| - 1] == '>'
      && '<' !in r[n..|r| - 1] && '>' !in r[n..|r| - 1]
      && Unescape(r[n..|r| - 1]) == t
  {
    var r := LinkText(url, Some(t));
    EscapeHasNoBrackets(t);
    UnescapeEscape(t);
    assert r[|url.href| + 2..|r| - 1] == Escape(t);
  }

  // ---------------------------------------------------------------------------
  // Payload and delivery.
  // ---------------------------------------------------------------------------

  datatype TextElement = TextElement(typ: string, text: string)
  datatype ContextBlock = ContextBlock(typ: string, elements: seq<TextElement>)

  /** The JSON body posted to the hook. */
  datatype Payload = Payload(blocks: seq<ContextBlock>)

  /** The payload `send` posts: a single "context" block with a single "mrkdwn" element
      carrying the whole text of the message. */
  function PayloadFor(blocks: seq<Block>): (p: Payload)
    ensures |p.blocks| == 1 && p.blocks[0].typ == "context"
    ensures |p.blocks[0].elements| == 1
    ensures p.blocks[0].elements[0] == TextElement("mrkdwn", Flatten(blocks))
  {
    Payload([ContextBlock("context", [TextElement("mrkdwn", Flatten(blocks))])])
  }

  /** A POST of a payload to a hook. */
  datatype Request = Request(hook: Url, payload: Payload)

  /** What the HTTP client reports for a POST: no response at all, or a status with
      the body (`None` when reading the body failed). */
  datatype HttpOutcome = ConnectionFailed | Responded(status: int, body: Option<string>)

  datatype SendError = PostFailed | BodyUnreadable | Rejected(status: int, body: string)

  /** `StatusCode::is_success`. */
  predicate IsSuccess(status: int) { 200 <= status <= 299 }

  /** The outcome of `send` given the HTTP outcome; the body is only read on failure. */
  function SendResult(response: HttpOutcome): (r: Result<(), SendError>)
    ensures r.Ok? <==> response.Responded? && IsSuccess(response.status)
    ensures response.ConnectionFailed? ==> r == Err(PostFailed)
    ensures response.Responded? && !IsSuccess(response.status) ==>
      r == Err(if response.body.Some? then Rejected(response.status, response.body.value) else BodyUnreadable)
  {
    match response
    case ConnectionFailed => Err(PostFailed)
    case Responded(status, body) =>
      if IsSuccess(status) then Ok(())
      else if body.None? then Err(BodyUnreadable)
      else Err(Rejected(status, body.value))
  }

  /** `SlackMessage`: blocks appended one at a time, then sent as one text. */
  class SlackMessage {
    var blocks: seq<Block>

    /** `SlackMessage::default`: no blocks. */
    constructor ()
      ensures blocks == []
    {
      blocks := [];
    }

    /** The text `send` will post. */
    function Text(): string
      reads this
    {
      Flatten(blocks)
    }

    method AppendMarkdown(markdown: string)
      modifies this
      ensures blocks == old(blocks) + [MarkdownBlock(markdown)]
      ensures Text() == old(Text()) + markdown
    {
      FlattenAppend(blocks, [MarkdownBlock(markdown)]);
      blocks := blocks + [MarkdownBlock(markdown)];
    }

    /** `SlackMessage::link`, escaping the text one character at a time. */
    static method Link(url: Url, text: Option<string>) returns (r: string)
      ensures r == LinkText(url, text)
    {
      match text {
        case None =>
          r := "[" + url.href + "](" + url.href + ")";
        case Some(t) =>
          var escaped := "";
          var i := 0;
          while i < |t|
            invariant 0 <= i <= |t|
            invariant escaped == Escape(t[..i])
          {
            var c := t[i];
            assert t[..i + 1] == t[..i] + [c];
            EscapeAppend(t[..i], [c]);
            EscapeSingle(c);
            if c == '&' {
              escaped := escaped + "&amp;";
            } else if c == '<' {
              escaped := escaped + "&lt;";
            } else if c == '>' {
              escaped := escaped + "&gt;";
            } else {
              escaped := escaped + [c];
            }
            i := i + 1;
          }
          assert t[..|t|] == t;
          r := "<" + url.href + "|" + escaped + ">";
      }
    }

    /** `send`: posts the payload of this message to `hook` through `transport` and
        reports the outcome. */
    method Send(hook: Url, transport: Request -> HttpOutcome) returns (request: Request, r: Result<(), SendError>)
      ensures request == Request(hook, PayloadFor(blocks))
      ensures r == SendResult(transport(request))
    {
      request := Request(hook, PayloadFor(blocks));
      r := SendResult(transport(request));
    }
  }
}
