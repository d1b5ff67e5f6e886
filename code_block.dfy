/** The per-match step of the `after_post_render` filter: every highlighted
    code block `<figure class="highlight LANG">...</figure>` is marked with an
    extra class and wrapped in a container that shows the language name. */
module CodeBlock {
  import opened Strings

  const FigureOpen := "<figure class=\"highlight "
  const MarkedFigureOpen := "<figure class=\"iseeu highlight "
  const ContainerOpen := "<div class=\"highlight-container\" data-rel=\""

  /** A character the capture group `([a-zA-Z+\-/#]+)` accepts. */
  predicate IsLanguageChar(c: char)
  {
    ('a' <= c <= 'z') || ('A' <= c <= 'Z') || c == '+' || c == '-' || c == '/' || c == '#'
  }

  /** A possible value of the capture group: one or more language characters. */
  predicate IsCapture(p1: string)
  {
    |p1| > 0 && forall k :: 0 <= k < |p1| ==> IsLanguageChar(p1[k])
  }

  /** The text a match consists of: the opening tag with the captured
      language, the block's body, and the closing tag. */
  function MatchText(lang: string, body: string): string
  {
    FigureOpen + lang + "\">" + body + "</figure>"
  }

  /** The language shown on the container: the capture, `code` for an empty
      capture (`p1 || "code"`), and `code` again for `plain`. */
  function DisplayLanguage(p1: string): (language: string)
    ensures language != "plain" && language != ""
    ensures p1 != "" && p1 != "plain" ==> language == p1
    ensures p1 == "" || p1 == "plain" ==> language == "code"
  {
    var language := if p1 == "" then "code" else p1;
    if language == "plain" then "code" else language
  }

  /** The replacement the filter's callback returns for one match `m` whose
      capture group is `p1`. */
  function WrapMatch(m: string, p1: string): string
  {
    ContainerOpen + Capitalize(DisplayLanguage(p1)) + "\">"
      + ReplaceFirst(m, FigureOpen, MarkedFigureOpen) + "</div>"
  }

  /** The marker class goes into the opening tag the match starts with. */
  lemma MarkFigure(lang: string, body: string)
    ensures ReplaceFirst(MatchText(lang, body), FigureOpen, MarkedFigureOpen)
            == MarkedFigureOpen + lang + "\">" + body + "</figure>"
  {
    var tail := lang + "\">" + body + "</figure>";
    var m := MatchText(lang, body);
    assert m == FigureOpen + tail;
    ReplaceAtStart(m, FigureOpen, MarkedFigureOpen);
    assert m[|FigureOpen|..] == tail;
  }

  /** For every match the pattern can produce, the output is exactly the
      container, the match with its opening tag marked, and the closing `div`;
      the `|| "code"` fallback never applies because the capture is never empty. */
  lemma WrapMatchExact(lang: string, body: string)
    requires IsCapture(lang)
    ensures WrapMatch(MatchText(lang, body), lang)
            == ContainerOpen + Capitalize(if lang == "plain" then "code" else lang) + "\">"
               + (MarkedFigureOpen + lang + "\">" + body + "</figure>") + "</div>"
  {
    var shown := if lang == "plain" then "code" else lang;
    assert DisplayLanguage(lang) == shown;
    MarkFigure(lang, body);
  }

  /** A `plain` block is labelled `Code`. */
  lemma PlainIsLabelledCode(body: string)
    ensures WrapMatch(MatchText("plain", body), "plain")
            == ContainerOpen + "Code" + "\">" + (MarkedFigureOpen + "plain" + "\">" + body + "</figure>") + "</div>"
  {
    assert IsLanguageChar('p') && IsLanguageChar('l') && IsLanguageChar('a') && IsLanguageChar('i') && IsLanguageChar('n');
    WrapMatchExact("plain", body);
    assert Capitalize("code") == "Code";
  }

  /** A piece of rendered content: plain text the pattern did not match, or a
      highlighted block it matched (language capture and body). */
  datatype Segment = Text(text: string) | Block(lang: string, body: string)

  /** The content a sequence of segments spells out. */
  function Flatten(segs: seq<Segment>): string
  {
    if segs == [] then ""
    else (match segs[0]
          case Text(t) => t
          case Block(lang, body) => MatchText(lang, body)) + Flatten(segs[1..])
  }

  /** The content after every block has been replaced by its wrapper. */
  function Rewrite(segs: seq<Segment>): string
  {
    if segs == [] then ""
    else (match segs[0]
          case Text(t) => t
          case Block(lang, body) => WrapMatch(MatchText(lang, body), lang)) + Rewrite(segs[1..])
  }

  predicate NoBlocks(segs: seq<Segment>)
  {
    forall k :: 0 <= k < |segs| ==> segs[k].Text?
  }

  /** Content without highlighted blocks is left unchanged. */
  lemma {:induction false} RewriteWithoutBlocks(segs: seq<Segment>)
    requires NoBlocks(segs)
    ensures Rewrite(segs) == Flatten(segs)
  {
    if segs != [] {
      RewriteWithoutBlocks(segs[1..]);
    }
  }

  /** The rewrite works piece by piece: rewriting a concatenation is the
      concatenation of the rewrites. */
  lemma {:induction false} RewriteAppend(a: seq<Segment>, b: seq<Segment>)
    ensures Rewrite(a + b) == Rewrite(a) + Rewrite(b)
  {
    if a == [] {
      assert a + b == b;
    } else {
      assert (a + b)[1..] == a[1..] + b;
      RewriteAppend(a[1..], b);
    }
  }

  /** The render result the host passes to the filter; its `content` is
      rewritten in place. */
  class RenderData {
    var content: string

    constructor (content: string)
      ensures this.content == content
    {
      this.content := content;
    }
  }

  /** `after_post_render`: given the content split at the pattern's matches,
      replace every match by its wrapper, leaving the text between matches. */
  method AfterPostRender(data: RenderData, segs: seq<Segment>)
    requires data.content == Flatten(segs)
    modifies data
    ensures data.content == Rewrite(segs)
  {
    data.content := Rewrite(segs);
  }
}
