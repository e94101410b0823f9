// Printing a record as markdown with YAML frontmatter, and parsing it back.
module Markdown {
  import opened Base
  import opened Texts

  // ----- text.split("---", 2) -------------------------------------------------------

  predicate DashesAt(s: string, k: nat) {
    k + 3 <= |s| && s[k] == '-' && s[k + 1] == '-' && s[k + 2] == '-'
  }

  predicate HasDashes(s: string) {
    exists k: nat | k < |s| :: DashesAt(s, k)
  }

  // The first delimiter at or after k.
  function Find(s: string, k: nat): (r: Option<nat>)
    ensures r.Some? ==> k <= r.value && DashesAt(s, r.value) && forall j | k <= j < r.value :: !DashesAt(s, j)
    ensures r.None? ==> forall j | k <= j :: !DashesAt(s, j)
    decreases |s| - k
  {
    if k + 3 > |s| then None else if DashesAt(s, k) then Some(k) else Find(s, k + 1)
  }

  function Split(s: string): (parts: seq<string>)
    ensures 1 <= |parts| <= 3
  {
    match Find(s, 0)
    case None => [s]
    case Some(i) =>
      match Find(s, i + 3)
      case None => [s[..i], s[i + 3..]]
      case Some(j) => [s[..i], s[i + 3..j], s[j + 3..]]
  }

  // The pieces rejoin to the text, and no delimiter was passed over.
  lemma {:induction false} SplitExact(s: string)
    ensures var parts := Split(s);
            && (|parts| == 1 ==> parts[0] == s && !HasDashes(s))
            && (|parts| == 2 ==> parts[0] + "---" + parts[1] == s && !HasDashes(parts[0]) && !HasDashes(parts[1]))
            && (|parts| == 3 ==> parts[0] + "---" + parts[1] + "---" + parts[2] == s
                                 && !HasDashes(parts[0]) && !HasDashes(parts[1]))
  {
    hide HasDashes, Find, DashesAt;
    match Find(s, 0) {
      case None =>
        NoCut(s, 0);
        assert s[0..] == s;
      case Some(i) =>
        CutAt(s, 0, i);
        match Find(s, i + 3) {
          case None =>
            NoCut(s, i + 3);
          case Some(j) =>
            CutAt(s, i + 3, j);
            Chained(s[..i], s[i + 3..j], s[j + 3..], s, i);
        }
    }
  }

  lemma {:induction false} Chained(a: string, b: string, c: string, s: string, i: nat)
    requires i + 3 <= |s| && s == a + "---" + s[i + 3..] && s[i + 3..] == b + "---" + c
    ensures s == a + "---" + b + "---" + c
  {
  }

  // What the first delimiter from k on leaves before and after it.
  lemma {:induction false} CutAt(s: string, k: nat, i: nat)
    requires Find(s, k) == Some(i)
    ensures !HasDashes(s[k..i]) && s[k..] == s[k..i] + "---" + s[i + 3..] && s[0..i] == s[..i] && s[0..] == s
    ensures i + 3 <= |s|
  {
    hide HasDashes;
    NoneWithin(s, k, i);
    assert s[i..i + 3] == "---";
  }

  lemma {:induction false} NoCut(s: string, k: nat)
    requires Find(s, k) == None && k <= |s|
    ensures !HasDashes(s[k..])
  {
    hide HasDashes;
    NoneWithin(s, k, |s|);
    assert s[k..|s|] == s[k..];
  }

  lemma {:induction false} NoneWithin(s: string, a: nat, b: nat)
    requires a <= b <= |s| && forall k | a <= k < b :: !DashesAt(s, k)
    ensures !HasDashes(s[a..b])
  {
    forall k: nat | k < b - a ensures !DashesAt(s[a..b], k) {
      assert !DashesAt(s, a + k);
    }
  }

  // Of a text that starts with a delimiter, the second piece ends at the next one.
  lemma {:induction false} HeaderExactly(s: string)
    requires "---" <= s
    ensures |Split(s)| == 3 <==>
              exists header, body :: s == "---" + header + "---" + body && !HasDashes(header + "--")
    ensures forall header, body | s == "---" + header + "---" + body && !HasDashes(header + "--") ::
              Split(s) == ["", header, body]
    ensures |Split(s)| == 3 ==>
              s == "---" + Split(s)[1] + "---" + Split(s)[2] && !HasDashes(Split(s)[1] + "--")
  {
    hide HasDashes, Split;
    forall header, body | s == "---" + header + "---" + body && !HasDashes(header + "--")
      ensures Split(s) == ["", header, body]
    {
      HeaderFound(s, header, body);
    }
    if |Split(s)| == 3 {
      HeaderSplit(s);
    }
  }

  lemma {:induction false} HeaderFound(s: string, header: string, body: string)
    requires s == "---" + header + "---" + body && !HasDashes(header + "--")
    ensures Split(s) == ["", header, body]
  {
    hide HasDashes;
    assert DashesAt(s, 0);
    assert Find(s, 0) == Some(0);
    NextDelimiter(s, header, body);
    assert s[..0] == "" && s[3..3 + |header|] == header && s[6 + |header|..] == body;
  }

  lemma {:induction false} HeaderSplit(s: string)
    requires "---" <= s && |Split(s)| == 3
    ensures s == "---" + Split(s)[1] + "---" + Split(s)[2] && !HasDashes(Split(s)[1] + "--")
  {
    assert DashesAt(s, 0);
    assert Find(s, 0) == Some(0);
    var j := Find(s, 3).value;
    var header := s[3..j];
    assert s[j..j + 3] == "---" && s == "---" + header + "---" + s[j + 3..];
    forall k: nat | k < |header + "--"|
      ensures !DashesAt(header + "--", k)
    {
      assert k < |header| ==> !DashesAt(s, 3 + k);
    }
  }

  lemma {:induction false} NextDelimiter(s: string, header: string, body: string)
    requires s == "---" + header + "---" + body && !HasDashes(header + "--")
    ensures Find(s, 3) == Some(3 + |header|)
  {
    var j := 3 + |header|;
    assert s[j..j + 3] == "---";
    assert DashesAt(s, j);
    forall k: nat | 3 <= k < j
      ensures !DashesAt(s, k)
    {
      assert !DashesAt(header + "--", k - 3);
      assert forall i | k <= i < k + 3 && i < |s| && i - 3 < |header + "--"| :: s[i] == (header + "--")[i - 3];
    }
  }

  // ----- the record format -------------------------------------------------------------

  datatype Record<+F> = Record(frontmatter: F, content: string)

  // YAML as an opaque printer and reader of frontmatter; `load` rejects with None.
  datatype Yaml<!F> = Yaml(dump: F -> string, load: string -> Option<F>)

  // What block-style YAML gives: complete lines, no delimiter, and a reader that
  // inverts the printer on the stripped text.
  ghost predicate Faithful<F>(y: Yaml<F>, f: F) {
    var d := y.dump(f);
    Lines(d) && !HasDashes(d) && y.load(Strip(d)) == Some(f)
  }

  ghost predicate Lines(d: string) {
    d == "" || d[|d| - 1] == '\n'
  }

  function Print<F>(y: Yaml<F>, r: Record<F>): string {
    "---\n" + y.dump(r.frontmatter) + "---\n" + r.content
  }

  predicate Plain(text: string) {
    !("---" <= text) || |Split(text)| < 3
  }

  // Text without frontmatter becomes a record with the blank one.
  function Parse<F>(y: Yaml<F>, blank: F, text: string): Option<Record<F>> {
    if Plain(text) then Some(Record(blank, text)) else
    var parts := Split(text);
    match y.load(Strip(parts[1]))
    case None => None
    case Some(f) => Some(Record(f, Strip(parts[2])))
  }

  // The duplicate migration's rewriting: new frontmatter, the body untouched.
  function Rewrite(dumped: string, original: string): string
    requires |Split(original)| == 3
  {
    "---\n" + dumped + "---" + Split(original)[2]
  }

  // ----- where the delimiters fall -------------------------------------------------------

  // Between complete lines and a tail, the second delimiter is the written one
  // exactly when the lines hold none.
  lemma {:induction false} SplitFramed(d: string, tail: string)
    requires Lines(d)
    ensures var s := "---\n" + d + "---" + tail;
            && |Split(s)| == 3 && Split(s)[0] == ""
            && (Split(s) == ["", "\n" + d, tail] <==> !HasDashes(d))
  {
    var s := "---\n" + d + "---" + tail;
    var n := 4 + |d|;
    assert DashesAt(s, 0) && Find(s, 0) == Some(0);
    assert DashesAt(s, n);
    var j := Find(s, 3).value;
    assert j <= n;
    forall k: nat | k < |d| ensures DashesAt(d, k) ==> DashesAt(s, k + 4) {
      assert d == s[4..n];
    }
    if !HasDashes(d) {
      NoneBefore(d, tail, j);
      assert s[3..n] == "\n" + d && s[n + 3..] == tail;
    } else {
      var k: nat :| k < |d| && DashesAt(d, k);
      assert j <= k + 4;
      assert |s[3..j]| < |"\n" + d|;
    }
  }

  lemma {:induction false} NoneBefore(d: string, tail: string, j: nat)
    requires Lines(d) && !HasDashes(d) && 3 <= j
    requires DashesAt("---\n" + d + "---" + tail, j)
    ensures j >= 4 + |d|
  {
    var s := "---\n" + d + "---" + tail;
    assert s[3] == '\n';
    assert s[4..4 + |d|] == d;
    assert d != "" ==> s[3 + |d|] == d[|d| - 1];
    assert 4 <= j && j + 3 <= 4 + |d| ==> DashesAt(d, j - 4);
  }

  lemma {:induction false} StripNewline(s: string)
    ensures Strip("\n" + s) == Strip(s)
  {
    assert ("\n" + s)[1..] == s;
  }

  // ----- round trips ------------------------------------------------------------------------

  // Parsing a printed record gives back its frontmatter and its stripped content,
  // whatever delimiters the content holds.
  lemma {:induction false} RoundTrip<F>(y: Yaml<F>, blank: F, r: Record<F>)
    requires Faithful(y, r.frontmatter)
    ensures Parse(y, blank, Print(y, r)) == Some(r.(content := Strip(r.content)))
  {
    var d := y.dump(r.frontmatter);
    var s := "---\n" + d + "---" + ("\n" + r.content);
    assert Print(y, r) == s;
    SplitFramed(d, "\n" + r.content);
    StripNewline(d);
    StripNewline(r.content);
    assert "---" <= s;
  }

  // So printing and parsing once reaches a fixed point.
  lemma {:induction false} PrintParseIdempotent<F>(y: Yaml<F>, blank: F, r: Record<F>)
    requires Faithful(y, r.frontmatter)
    ensures var once := Parse(y, blank, Print(y, r)); once.Some? && Parse(y, blank, Print(y, once.value)) == once
  {
    RoundTrip(y, blank, r);
    StripTrims(r.content);
    RoundTrip(y, blank, r.(content := Strip(r.content)));
  }

  // A record read from a file survives being written again exactly when the file
  // had frontmatter or its whole text had no outer space.
  lemma {:induction false} ReadBackExactly<F>(y: Yaml<F>, blank: F, text: string)
    requires Parse(y, blank, text).Some? && Faithful(y, Parse(y, blank, text).value.frontmatter)
    ensures Parse(y, blank, Print(y, Parse(y, blank, text).value)) == Parse(y, blank, text)
            <==> (!Plain(text) || Trim(text))
  {
    var r := Parse(y, blank, text).value;
    RoundTrip(y, blank, r);
    StripTrims(r.content);
    if !Plain(text) {
      StripTrims(Split(text)[2]);
    }
  }

  // Rewriting frontmatter leaves the exact bytes of the body, so its hash.
  lemma {:induction false} RewriteKeepsBody(dumped: string, original: string)
    requires |Split(original)| == 3 && Lines(dumped) && !HasDashes(dumped)
    ensures |Split(Rewrite(dumped, original))| == 3
    ensures Split(Rewrite(dumped, original))[2] == Split(original)[2]
  {
    SplitFramed(dumped, Split(original)[2]);
  }

  // Without that condition on the dumped text the frontmatter leaks into the body.
  lemma {:induction false} DelimiterInFrontmatterLeaks(dumped: string, original: string)
    requires |Split(original)| == 3 && Lines(dumped) && HasDashes(dumped)
    ensures |Split(Rewrite(dumped, original))| == 3
    ensures |Split(Rewrite(dumped, original))[2]| > |Split(original)[2]|
  {
    var s := Rewrite(dumped, original);
    var body := Split(original)[2];
    SplitFramed(dumped, body);
    var k: nat :| k < |dumped| && DashesAt(dumped, k);
    assert DashesAt(s, 0) && Find(s, 0) == Some(0);
    assert dumped == s[4..4 + |dumped|];
    assert DashesAt(s, k + 4);
    assert Find(s, 3).value <= k + 4;
  }
}
