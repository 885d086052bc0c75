/** What survives a write and a read of the front matter: for fields the
    line parser can read back, `parse_frontmatter` of what
    `update_frontmatter` writes gives the merged fields and the body again,
    less the blank lines that the closing delimiter's `\s*\n` takes from the
    body's start. */
module FrontmatterRoundTrip {
  import opened Wrappers
  import opened Text
  import opened Seqs
  import opened Frontmatter

  // ---------------------------------------------------------------
  // What can be read back
  // ---------------------------------------------------------------

  /** Neither end of `x` is the character `c`. */
  predicate NoEdge(x: string, c: char) {
    x == [] || (x[0] != c && x[|x| - 1] != c)
  }

  /** A key the parser reads back: stripped, with no colon or newline, and
      not starting a comment. */
  predicate GoodKey(k: string) {
    IsStripped(k) && ':' !in k && '\n' !in k && !StartsWith(k, "#")
  }

  /** A list item the parser reads back from `"x"`. */
  predicate GoodItem(x: string) {
    '\n' !in x && ',' !in x && NoEdge(x, '"') && NoEdge(x, '\'')
  }

  /** A value the parser reads back as itself. A string must hold no double
      quote (the parser does not undo the escaping), and a string written
      bare must be stripped and not look quoted. Scalars come back as
      strings, so they are not included. */
  predicate GoodValue(v: Value) {
    match v
    case Str(s) => '\n' !in s && '"' !in s && (NeedsQuotes(s) || (IsStripped(s) && !Enclosed(s, '\'', '\'')))
    case List(xs) => forall i :: 0 <= i < |xs| ==> GoodItem(xs[i])
    case Scalar(_) => false
  }

  predicate GoodDict(d: Dict) {
    IsDict(d) && forall i :: 0 <= i < |d| ==> GoodKey(d[i].0) && GoodValue(d[i].1)
  }

  // ---------------------------------------------------------------
  // The shape of the text written
  // ---------------------------------------------------------------

  /** The field lines, each ended by a newline. */
  function Block(lines: seq<string>): string {
    if lines == [] then "" else Join(lines, "\n") + "\n"
  }

  lemma {:induction false} JoinTail(lines: seq<string>)
    ensures Join(lines + ["---", ""], "\n") == Block(lines) + "---\n"
  {
    if lines != [] {
      assert (lines + ["---", ""])[1..] == lines[1..] + ["---", ""];
      JoinTail(lines[1..]);
    }
  }

  /** `update_frontmatter` writes `---`, one line per field, `---`, and then
      the body exactly as it was. */
  lemma RenderShape(d: Dict, body: string)
    ensures Render(d, body) == "---\n" + Block(RenderLines(d)) + "---\n" + body
    ensures StartsWith(Render(d, body), "---\n") && EndsWith(Render(d, body), body)
  {
    var lines := RenderLines(d);
    RenderJoin(lines);
    Framed("---\n", Block(lines) + "---\n", body);
  }

  /** The lines between the two delimiters, joined. */
  lemma RenderJoin(lines: seq<string>)
    ensures Join(["---"] + lines + ["---", ""], "\n") == "---\n" + Block(lines) + "---\n"
  {
    assert ["---"] + lines + ["---", ""] == ["---"] + (lines + ["---", ""]);
    assert (["---"] + (lines + ["---", ""]))[1..] == lines + ["---", ""];
    JoinTail(lines);
  }

  /** Text made of a prefix, a middle and a suffix starts and ends with them. */
  lemma Framed(pre: string, mid: string, post: string)
    ensures pre + mid + post == pre + (mid + post)
    ensures StartsWith(pre + mid + post, pre) && EndsWith(pre + mid + post, post)
  {
    var s := pre + mid + post;
    assert s == (pre + mid) + post;
    assert s[|s| - |post|..] == post;
  }

  /** A non-empty block ends in the newline before the closing delimiter. */
  lemma BlockText(lines: seq<string>, body: string)
    requires lines != []
    ensures "---\n" + Block(lines) + "---\n" + body == "---\n" + Join(lines, "\n") + "\n---\n" + body
  {
    var j := Join(lines, "\n");
    assert "---\n" + (j + "\n") + "---\n" + body == "---\n" + j + ("\n" + "---\n") + body;
  }

  lemma JoinStart(parts: seq<string>, sep: string)
    requires |parts| >= 1
    ensures |parts[0]| <= |Join(parts, sep)| && Join(parts, sep)[..|parts[0]|] == parts[0]
  {
    if |parts| >= 2 {
      assert Join(parts, sep) == parts[0] + (sep + Join(parts[1..], sep));
    }
  }

  lemma {:induction false} JoinAvoids(parts: seq<string>, sep: string, c: char)
    requires c !in sep && forall i :: 0 <= i < |parts| ==> c !in parts[i]
    ensures c !in Join(parts, sep)
  {
    if |parts| >= 2 {
      JoinAvoids(parts[1..], sep, c);
    }
  }

  // ---------------------------------------------------------------
  // Values and lines
  // ---------------------------------------------------------------

  lemma StripCharNoEdge(s: string, c: char)
    requires NoEdge(s, c)
    ensures StripChar(s, c) == s
  {
  }

  lemma StripCharQuote(x: string)
    requires NoEdge(x, '"')
    ensures StripChar(Quote(x), '"') == x
  {
    assert Quote(x)[1..] == x + "\"";
    assert (x + "\"")[..|x|] == x;
    StripCharNoEdge(x, '"');
  }

  /** The items after the first, each with the blank that `", "` puts
      before it. */
  function Padded(rs: seq<string>): (r: seq<string>)
    ensures |r| == |rs| && forall i :: 0 <= i < |rs| ==> r[i] == " " + rs[i]
  {
    seq(|rs|, i requires 0 <= i < |rs| => " " + rs[i])
  }

  lemma PaddedCons(y: string, rs: seq<string>)
    ensures Join(Padded([y] + rs), ",") == " " + Join([y] + Padded(rs), ",")
  {
    var p := Padded(rs);
    assert Padded([y] + rs) == [" " + y] + p;
    assert ([" " + y] + p)[1..] == p;
    assert ([y] + p)[1..] == p;
  }

  /** Joining with `", "` is joining with `","` once each later item carries
      its blank. */
  lemma {:induction false} JoinCommaSpace(qs: seq<string>)
    requires |qs| >= 1
    ensures Join(qs, ", ") == Join([qs[0]] + Padded(qs[1..]), ",")
  {
    if |qs| >= 2 {
      JoinCommaSpace(qs[1..]);
      assert qs[1..] == [qs[1]] + qs[2..];
      assert qs[1..][1..] == qs[2..];
      PaddedCons(qs[1], qs[2..]);
      assert ([qs[0]] + Padded(qs[1..]))[1..] == Padded(qs[1..]);
    }
  }

  /** Reading back the items of a written list. */
  lemma {:induction false} ItemsOfQuoted(parts: seq<string>, xs: seq<string>)
    requires |parts| == |xs|
    requires forall i :: 0 <= i < |xs| ==> GoodItem(xs[i])
    requires forall i :: 0 <= i < |xs| ==> parts[i] == Quote(xs[i]) || parts[i] == " " + Quote(xs[i])
    ensures Items(parts) == xs
  {
    if parts != [] {
      var q := Quote(xs[0]);
      var pad := if parts[0] == q then "" else " ";
      assert parts[0] == pad + q + "";
      StripPadded(pad, q, "");
      StripCharQuote(xs[0]);
      StripCharNoEdge(xs[0], '\'');
      ItemsOfQuoted(parts[1..], xs[1..]);
      assert xs == [xs[0]] + xs[1..];
    }
  }

  lemma ParseListRender(xs: seq<string>)
    requires xs != [] && forall i :: 0 <= i < |xs| ==> GoodItem(xs[i])
    ensures var w := RenderValue(List(xs));
            IsStripped(w) && '\n' !in w && ParseValue(w) == List(xs)
  {
    var qs := Quoted(xs);
    var inner := Join(qs, ", ");
    assert RenderValue(List(xs)) == "[" + inner + "]";
    JoinStart(qs, ", ");
    JoinAvoids(qs, ", ", '\n');
    ListItemsBack(xs, qs, inner);
  }

  /** The items between the brackets of a written list read back as the list. */
  lemma ListItemsBack(xs: seq<string>, qs: seq<string>, inner: string)
    requires xs != [] && forall i :: 0 <= i < |xs| ==> GoodItem(xs[i])
    requires qs == Quoted(xs) && inner == Join(qs, ", ")
    ensures Items(Split(inner, ',')) == xs
  {
    var parts := [qs[0]] + Padded(qs[1..]);
    JoinCommaSpace(qs);
    forall k | 0 <= k < |parts| ensures ',' !in parts[k] && (parts[k] == Quote(xs[k]) || parts[k] == " " + Quote(xs[k])) {
      if k > 0 {
        assert parts[k] == " " + qs[k];
      }
    }
    SplitJoin(parts, ',');
    ItemsOfQuoted(parts, xs);
  }

  /** A good value is written as a stripped, one-line text that the value
      parser turns back into the same value. */
  lemma ParseValueRender(v: Value)
    requires GoodValue(v)
    ensures var w := RenderValue(v);
            IsStripped(w) && '\n' !in w && ParseValue(w) == v
  {
    match v
    case List(xs) =>
      if xs != [] {
        ParseListRender(xs);
      }
    case Str(s) =>
      if NeedsQuotes(s) {
        ReplaceCharNoOccurrence(s, '"', "\\\"");
        assert Inner(Quote(s)) == s;
      } else {
        assert !StartsWith("[]", "[") || s != "[]";
      }
  }

  /** The facts about a written line that the delimiter proofs need. */
  lemma LineFacts(k: string, v: Value)
    requires GoodKey(k) && GoodValue(v)
    ensures var line := RenderLine(k, v);
            && '\n' !in line && line != [] && !IsSpace(line[0])
            && (StartsWith(line, "---") ==> ':' in line[3..])
  {
    ParseValueRender(v);
    var line := RenderLine(k, v);
    assert line[|k|] == ':';
    if k != [] {
      assert line[0] == k[0];
    }
    if |k| < 3 {
      if |line| >= 3 {
        assert line[..3][|k|] == ':';
      }
    } else {
      assert line[3..][|k| - 3] == ':';
    }
  }

  /** What follows the colon of a written line once it is stripped. */
  function AfterColon(w: string): string {
    if w == [] then "" else " " + w
  }

  lemma StripLine(k: string, w: string)
    requires IsStripped(k) && IsStripped(w)
    ensures Strip(k + ": " + w) == k + [':'] + AfterColon(w)
  {
    if w == [] {
      assert k + ": " + w == k + ": " && k + [':'] + AfterColon(w) == k + [':'];
      StripLineBare(k);
    } else {
      assert k + [':'] + AfterColon(w) == k + [':'] + " " + w;
      StripLineValue(k, w);
    }
  }

  lemma StripLineBare(k: string)
    requires IsStripped(k)
    ensures Strip(k + ": ") == k + [':']
  {
    var l := k + [':'];
    assert IsStripped(l) by {
      assert l[|l| - 1] == ':';
      if k != [] {
        assert l[0] == k[0];
      }
    }
    assert k + ": " == "" + l + " ";
    StripPadded("", l, " ");
  }

  lemma StripLineValue(k: string, w: string)
    requires IsStripped(k) && IsStripped(w) && w != []
    ensures Strip(k + ": " + w) == k + [':'] + " " + w
  {
    var l := k + [':'] + " " + w;
    assert IsStripped(l) by {
      assert l[|l| - 1] == w[|w| - 1];
      if k != [] {
        assert l[0] == k[0];
      }
    }
    assert k + ": " + w == "" + l + "";
    StripPadded("", l, "");
  }

  lemma ParseLineOf(line: string, k: string, rest: string)
    requires Strip(line) == k + [':'] + rest
    requires IsStripped(k) && ':' !in k && !StartsWith(k, "#")
    ensures ParseLine(line) == Some((k, ParseValue(Strip(rest))))
  {
    var l := Strip(line);
    IndexOfConcat(k, ':', rest);
    assert l[..|k|] == k && l[|k| + 1..] == rest;
    StripOfStripped(k);
    if k != [] {
      assert l[0] == k[0];
      assert k[..1] != "#";
    }
    assert l[..1] != "#";
  }

  /** A written line reads back as its own field. */
  lemma ParseLineRender(k: string, v: Value)
    requires GoodKey(k) && GoodValue(v)
    ensures ParseLine(RenderLine(k, v)) == Some((k, v))
  {
    var w := RenderValue(v);
    ParseValueRender(v);
    StripLine(k, w);
    ParseLineOf(RenderLine(k, v), k, AfterColon(w));
    if w != [] {
      assert AfterColon(w) == " " + w + "";
      StripPadded(" ", w, "");
    }
  }

  lemma GoodFront(d: Dict)
    requires GoodDict(d) && d != []
    ensures GoodDict(d[..|d| - 1]) && KeyAbsent(d[..|d| - 1], d[|d| - 1].0)
    ensures GoodKey(d[|d| - 1].0) && GoodValue(d[|d| - 1].1)
  {
    var n := |d|;
    var front := d[..n - 1];
    assert forall i :: 0 <= i < n - 1 ==> Keys(front)[i] == Keys(d)[i];
    forall i | 0 <= i < n - 1 ensures front[i].0 != d[n - 1].0 {
      assert Keys(d)[i] == front[i].0 && Keys(d)[n - 1] == d[n - 1].0;
    }
  }

  /** No entry of `d` has key `k`. */
  predicate KeyAbsent(d: Dict, k: string) {
    forall i :: 0 <= i < |d| ==> d[i].0 != k
  }

  lemma {:induction false} PutNew(d: Dict, k: string, v: Value)
    requires KeyAbsent(d, k)
    ensures Put(d, k, v) == d + [(k, v)]
  {
    if d != [] {
      var t := d[1..];
      assert d[0].0 != k;
      assert KeyAbsent(t, k) by {
        forall i | 0 <= i < |t| ensures t[i].0 != k {
          assert t[i] == d[i + 1];
        }
      }
      PutNew(t, k, v);
      ConsSnoc(d, (k, v));
    }
  }

  /** Reading the written lines gives back the dict. */
  lemma {:induction false} FieldsRender(d: Dict)
    requires GoodDict(d)
    ensures Fields(RenderLines(d)) == d
  {
    if d != [] {
      var n := |d|;
      var lines := RenderLines(d);
      var front := d[..n - 1];
      var k, v := d[n - 1].0, d[n - 1].1;
      assert lines[..n - 1] == RenderLines(front);
      GoodFront(d);
      FieldsRender(front);
      ParseLineRender(k, v);
      FieldsSnoc(lines, front, k, v);
      PutNew(front, k, v);
      FrontLast(d);
    }
  }

  /** One more line that reads as a field puts that field. */
  lemma FieldsSnoc(lines: seq<string>, d: Dict, k: string, v: Value)
    requires lines != [] && Fields(lines[..|lines| - 1]) == d
    requires ParseLine(lines[|lines| - 1]) == Some((k, v))
    ensures Fields(lines) == Put(d, k, v)
  {
  }

  // ---------------------------------------------------------------
  // Where the delimiters match
  // ---------------------------------------------------------------

  /** The newline before a written line does not start a closing delimiter:
      a line cannot be `---` followed only by whitespace. */
  lemma LineNoClose(s: string, j: nat, line: string)
    requires j + 1 + |line| < |s|
    requires s[j + 1..j + 1 + |line|] == line && s[j + 1 + |line|] == '\n'
    requires '\n' !in line
    requires StartsWith(line, "---") ==> ':' in line[3..]
    ensures CloseAt(s, j).None?
  {
    if |line| < 3 {
      if j + 4 <= |s| {
        assert s[j..j + 4][1 + |line|] == s[j + 1 + |line|];
      }
    } else if line[..3] == "---" {
      var c' :| 0 <= c' < |line| - 3 && line[3..][c'] == ':';
      var c := c' + 3;
      assert s[j + 1 + c] == line[c];
      var e := SpaceEnd(s, j + 4);
      assert e <= j + 1 + c;
      forall i | j + 4 <= i < e ensures s[i] != '\n' {
        assert s[i] == line[i - j - 1];
      }
    } else {
      if j + 4 <= |s| {
        assert s[j..j + 4][1..] == line[..3];
      }
    }
  }

  /** No closing delimiter starts inside a line, which has no newline. */
  lemma NoCloseInLine(s: string, o: nat, line: string)
    requires o + |line| <= |s| && s[o..o + |line|] == line && '\n' !in line
    ensures NoCloseIn(s, o, o + |line|)
  {
    forall j | o <= j < o + |line| ensures CloseAt(s, j).None? {
      assert s[j] == line[j - o];
      if j + 4 <= |s| {
        assert s[j..j + 4][0] == s[j];
      }
    }
  }

  lemma SliceConcat(s: string, o: nat, a: string, b: string)
    requires o + |a + b| <= |s| && s[o..o + |a + b|] == a + b
    ensures s[o..o + |a|] == a && s[o + |a|..o + |a| + |b|] == b
  {
    assert s[o..o + |a|] == s[o..o + |a + b|][..|a|];
    assert s[o + |a|..o + |a| + |b|] == s[o..o + |a + b|][|a|..];
  }

  /** What lies at `o` is a newline and then `b`. */
  lemma SliceNewline(s: string, o: nat, b: string)
    requires o + 1 + |b| <= |s| && s[o..o + 1 + |b|] == "\n" + b
    ensures s[o] == '\n' && s[o + 1..o + 1 + |b|] == b
  {
    assert s[o] == s[o..o + 1 + |b|][0];
    assert s[o + 1..o + 1 + |b|] == s[o..o + 1 + |b|][1..];
  }

  /** Lines joined at `o` in `s` and followed there by a newline: the first
      line comes first and is itself followed by a newline. */
  lemma JoinedFirst(s: string, o: nat, lines: seq<string>)
    requires |lines| >= 1 && o + |Join(lines, "\n")| < |s|
    requires s[o..o + |Join(lines, "\n")|] == Join(lines, "\n") && s[o + |Join(lines, "\n")|] == '\n'
    ensures o + |lines[0]| < |s| && s[o..o + |lines[0]|] == lines[0] && s[o + |lines[0]|] == '\n'
  {
    var all := Join(lines, "\n");
    var first := lines[0];
    if |lines| == 1 {
      assert all == first;
    } else {
      var nl := "\n" + Join(lines[1..], "\n");
      assert all == first + nl;
      SliceConcat(s, o, first, nl);
      assert s[o + |first|] == nl[0];
    }
  }

  /** After the first line and its newline come the other lines, joined. */
  lemma JoinedRest(s: string, o: nat, lines: seq<string>)
    requires |lines| >= 2 && o + |Join(lines, "\n")| < |s|
    requires s[o..o + |Join(lines, "\n")|] == Join(lines, "\n")
    ensures o + |lines[0]| + 1 + |Join(lines[1..], "\n")| == o + |Join(lines, "\n")|
    ensures s[o + |lines[0]| + 1..o + |lines[0]| + 1 + |Join(lines[1..], "\n")|] == Join(lines[1..], "\n")
  {
    var rest := Join(lines[1..], "\n");
    var nl := "\n" + rest;
    assert Join(lines, "\n") == lines[0] + nl;
    SliceConcat(s, o, lines[0], nl);
    SliceNewline(s, o + |lines[0]|, rest);
  }

  /** A written line: one line, not blank at its start, and not taken for
      a closing delimiter. */
  predicate GoodLine(line: string) {
    && '\n' !in line && line != [] && !IsSpace(line[0])
    && (StartsWith(line, "---") ==> ':' in line[3..])
  }

  predicate GoodLines(lines: seq<string>) {
    forall i :: 0 <= i < |lines| ==> GoodLine(lines[i])
  }

  /** No closing delimiter starts at any position from `lo` up to `hi`. */
  predicate NoCloseIn(s: string, lo: nat, hi: nat) {
    hi <= |s| && forall j :: lo <= j < hi ==> CloseAt(s, j).None?
  }

  /** The lines lie joined at `o` in `s`, followed there by a newline. */
  predicate LinesAt(s: string, o: nat, lines: seq<string>) {
    && o + |Join(lines, "\n")| < |s|
    && s[o..o + |Join(lines, "\n")|] == Join(lines, "\n") && s[o + |Join(lines, "\n")|] == '\n'
  }

  /** Between the first written line and the others no closing delimiter
      starts, and the others lie joined after it. */
  lemma NextLine(s: string, o: nat, lines: seq<string>)
    requires |lines| >= 2 && LinesAt(s, o, lines) && GoodLines(lines)
    ensures NoCloseIn(s, o + |lines[0]|, o + |lines[0]| + 1)
    ensures o + |lines[0]| + 1 + |Join(lines[1..], "\n")| == o + |Join(lines, "\n")|
    ensures LinesAt(s, o + |lines[0]| + 1, lines[1..]) && GoodLines(lines[1..])
  {
    var o' := o + |lines[0]| + 1;
    JoinedRest(s, o, lines);
    assert LinesAt(s, o', lines[1..]);
    JoinedFirst(s, o', lines[1..]);
    assert lines[1..][0] == lines[1];
    assert GoodLine(lines[1]);
    LineNoClose(s, o' - 1, lines[1]);
    forall i | 0 <= i < |lines[1..]| ensures GoodLine(lines[1..][i]) {
      assert lines[1..][i] == lines[i + 1];
    }
  }

  lemma NoCloseUnion(s: string, a: nat, b: nat, c: nat)
    requires a <= b <= c && NoCloseIn(s, a, b) && NoCloseIn(s, b, c)
    ensures NoCloseIn(s, a, c)
  {
  }

  /** No closing delimiter starts inside the written lines. */
  lemma {:induction false} NoCloseInLines(s: string, o: nat, lines: seq<string>)
    requires |lines| >= 1 && LinesAt(s, o, lines) && GoodLines(lines)
    ensures NoCloseIn(s, o, o + |Join(lines, "\n")|)
    decreases |lines|
  {
    JoinedFirst(s, o, lines);
    assert GoodLine(lines[0]);
    NoCloseInLine(s, o, lines[0]);
    if |lines| >= 2 {
      var m := o + |lines[0]|;
      NextLine(s, o, lines);
      NoCloseUnion(s, o, m, m + 1);
      NoCloseInLines(s, m + 1, lines[1..]);
      NoCloseUnion(s, o, m + 1, o + |Join(lines, "\n")|);
    } else {
      assert Join(lines, "\n") == lines[0];
    }
  }

  lemma {:induction false} FirstCloseIs(s: string, lo: nat, q: nat)
    requires lo <= q <= |s| && CloseAt(s, q).Some? && NoCloseIn(s, lo, q)
    ensures FirstClose(s, lo) == Some((q, CloseAt(s, q).value))
    decreases q - lo
  {
    if lo < q {
      FirstCloseIs(s, lo + 1, q);
    }
  }

  lemma {:induction false} SpaceEndShift(pre: string, t: string, i: nat)
    requires i <= |t|
    ensures SpaceEnd(pre + t, |pre| + i) == |pre| + SpaceEnd(t, i)
    decreases |t| - i
  {
    if i < |t| {
      assert (pre + t)[|pre| + i] == t[i];
      SpaceEndShift(pre, t, i + 1);
    }
  }

  function Shift(r: Option<nat>, n: nat): Option<nat> {
    match r
    case Some(j) => Some(n + j)
    case None => None
  }

  lemma {:induction false} LastNewlineShift(pre: string, t: string, lo: nat, hi: nat)
    requires lo <= hi <= |t|
    ensures LastNewline(pre + t, |pre| + lo, |pre| + hi) == Shift(LastNewline(t, lo, hi), |pre|)
    decreases hi - lo
  {
    if lo < hi {
      assert (pre + t)[|pre| + hi - 1] == t[hi - 1];
      LastNewlineShift(pre, t, lo, hi - 1);
    }
  }

  lemma {:induction false} LastNewlineFrom(s: string, lo: nat, hi: nat)
    requires lo < hi <= |s| && s[lo] == '\n'
    ensures LastNewline(s, lo, hi) == if LastNewline(s, lo + 1, hi).Some? then LastNewline(s, lo + 1, hi) else Some(lo)
    decreases hi
  {
    if hi - 1 > lo && s[hi - 1] != '\n' {
      LastNewlineFrom(s, lo, hi - 1);
    }
  }

  lemma {:induction false} SpaceEndMid(s: string, i: nat, m: nat)
    requires i <= |s| && i <= m <= SpaceEnd(s, i)
    ensures SpaceEnd(s, m) == SpaceEnd(s, i)
    decreases m - i
  {
    if i < m {
      SpaceEndMid(s, i + 1, m);
    }
  }

  lemma {:induction false} MatchFromCloses(s: string, hi: nat)
    requires 3 <= hi <= |s|
    ensures MatchFrom(s, hi).Some? ==>
              MatchFrom(s, hi).value.1 <= |s| && CloseAt(s, MatchFrom(s, hi).value.1) == Some(MatchFrom(s, hi).value.2)
    decreases hi
  {
    match LastNewline(s, 3, hi)
    case None =>
    case Some(p) =>
      if FirstClose(s, p + 1).None? {
        MatchFromCloses(s, p);
      }
  }

  // ---------------------------------------------------------------
  // The round trip
  // ---------------------------------------------------------------

  /** How much of the body's start the closing delimiter takes: its `\s*\n`
      reaches through the leading whitespace up to the last newline in it. */
  function Swallowed(body: string): (n: nat)
    ensures n <= |body|
    ensures forall j :: n <= j < SpaceEnd(body, 0) ==> body[j] != '\n'
  {
    match LastNewline(body, 0, SpaceEnd(body, 0))
    case Some(j) => j + 1
    case None => 0
  }

  /** Where the closing delimiter ends in written text. */
  lemma CloseOfRender(pre: string, body: string, q: nat)
    requires |pre| == q + 5 && pre[q..] == "\n---\n"
    ensures CloseAt(pre + body, q) == Some(q + 4 + Swallowed(body))
  {
    var s := pre + body;
    assert s[q..q + 4] == pre[q..][..4];
    assert s[q + 4] == '\n';
    SpaceEndShift(pre, body, 0);
    var h := SpaceEnd(body, 0);
    assert SpaceEnd(s, q + 4) == q + 5 + h;
    LastNewlineFrom(s, q + 4, q + 5 + h);
    LastNewlineShift(pre, body, 0, h);
  }

  lemma RenderedLines(d: Dict)
    requires GoodDict(d)
    ensures GoodLines(RenderLines(d))
  {
    forall i | 0 <= i < |d| ensures GoodLine(RenderLines(d)[i]) {
      LineFacts(d[i].0, d[i].1);
    }
  }

  /** The match found in text that opens with `---`, a newline and the
      written lines. */
  lemma MatchOfLines(s: string, lines: seq<string>, q: nat, e: nat)
    requires |lines| >= 1 && q == 4 + |Join(lines, "\n")| < |s|
    requires s[..4] == "---\n" && s[4..q] == Join(lines, "\n") && s[q] == '\n'
    requires GoodLines(lines)
    requires CloseAt(s, q) == Some(e)
    ensures FrontmatterMatch(s) == Some((3, q, e))
  {
    JoinStart(lines, "\n");
    assert s[4] == s[4..q][0] == lines[0][0];
    assert s[..3] == s[..4][..3];
    assert s[3] == s[..4][3];
    assert SpaceEnd(s, 3) == 4;
    NoCloseInLines(s, 4, lines);
    FirstCloseIs(s, 4, q);
  }

  lemma ParseOfMatch(s: string, p: nat, q: nat, e: nat)
    requires p < q <= e < |s| && FrontmatterMatch(s) == Some((p, q, e))
    ensures Parse(s).0 == BlockFields(s, p, q)
    ensures Parse(s).1 == s[e + 1..]
  {
    assert Parse(s) == ParseFrom(s, Some((p, q, e)));
    ParseFromFields(s, p, q, e);
    ParseFromBody(s, p, q, e);
  }

  /** The lines of a block read as their fields. */
  lemma BlockOfLines(s: string, lines: seq<string>, q: nat)
    requires |lines| >= 1 && 4 <= q <= |s| && s[4..q] == Join(lines, "\n")
    requires forall i :: 0 <= i < |lines| ==> '\n' !in lines[i]
    ensures BlockFields(s, 3, q) == Fields(lines)
  {
    SplitJoin(lines, '\n');
    assert "\n" == ['\n'];
  }

  /** Where the pieces lie in text made of `---`, a block, `---` and a body. */
  lemma TextPieces(all: string, body: string)
    ensures var pre := "---\n" + all + "\n---\n";
            var s := pre + body;
            var q := 4 + |all|;
            && |pre| == q + 5 && pre[q..] == "\n---\n"
            && q < |s| && s[..4] == "---\n" && s[4..q] == all && s[q] == '\n'
            && s[q + 5..] == body
  {
  }

  /** Where the regular expression matches in text made of `---`, the
      lines, `---` and a body. */
  lemma MatchOfText(lines: seq<string>, body: string, s: string, q: nat, e: nat)
    requires |lines| >= 1 && GoodLines(lines)
    requires s == "---\n" + Join(lines, "\n") + "\n---\n" + body
    requires q == 4 + |Join(lines, "\n")| && e == q + 4 + Swallowed(body)
    ensures FrontmatterMatch(s) == Some((3, q, e))
  {
    var all := Join(lines, "\n");
    var pre := "---\n" + all + "\n---\n";
    TextPieces(all, body);
    CloseOfRender(pre, body, q);
    MatchOfLines(s, lines, q, e);
  }

  /** The block and the body in text made of `---`, a block, `---` and a body. */
  lemma TextSlices(all: string, body: string, s: string, q: nat, e: nat)
    requires s == "---\n" + all + "\n---\n" + body
    requires q == 4 + |all| && e == q + 4 + Swallowed(body)
    ensures q <= |s| && s[4..q] == all && e < |s| && s[e + 1..] == body[Swallowed(body)..]
  {
    TextPieces(all, body);
    assert s[e + 1..] == s[q + 5..][Swallowed(body)..];
  }

  /** Reading text made of `---`, the lines, `---` and a body. */
  lemma ParseOfText(lines: seq<string>, body: string, s: string)
    requires |lines| >= 1 && GoodLines(lines)
    requires s == "---\n" + Join(lines, "\n") + "\n---\n" + body
    ensures Parse(s).0 == Fields(lines) && Parse(s).1 == body[Swallowed(body)..]
  {
    var all := Join(lines, "\n");
    var q: nat := 4 + |all|;
    var e: nat := q + 4 + Swallowed(body);
    TextSlices(all, body, s, q, e);
    MatchOfText(lines, body, s, q, e);
    ParseOfMatch(s, 3, q, e);
    BlockOfLines(s, lines, q);
  }

  /** Reading what is written for a non-empty good dict gives the dict back,
      and the body less the leading blank lines the closing delimiter
      takes. */
  lemma RoundTrip(d: Dict, body: string)
    requires GoodDict(d) && d != []
    ensures Parse(Render(d, body)) == (d, body[Swallowed(body)..])
  {
    var lines := RenderLines(d);
    RenderShape(d, body);
    BlockText(lines, body);
    RenderedLines(d);
    ParseOfText(lines, body, Render(d, body));
    FieldsRender(d);
  }

  /** After a closing delimiter the body has nothing left for `\s*\n` to
      take: the delimiter took it all. */
  lemma NothingLeft(s: string, q: nat, e: nat)
    requires q <= |s| && CloseAt(s, q) == Some(e)
    ensures Swallowed(s[e + 1..]) == 0
  {
    var se := SpaceEnd(s, q + 4);
    assert LastNewline(s, q + 4, se) == Some(e);
    var body := s[e + 1..];
    var pre := s[..e + 1];
    assert s == pre + body;
    SpaceEndMid(s, q + 4, e + 1);
    SpaceEndShift(pre, body, 0);
    assert LastNewline(s, e + 1, se).None?;
    LastNewlineShift(pre, body, 0, se - e - 1);
  }

  /** A body that came out of a parsed block has nothing left for the
      closing delimiter to take. */
  lemma ParsedBodyKept(content: string)
    requires FrontmatterMatch(content).Some?
    ensures Swallowed(Parse(content).1) == 0
  {
    var m := FrontmatterMatch(content).value;
    MatchFromCloses(content, SpaceEnd(content, 3));
    ParseOfMatch(content, m.0, m.1, m.2);
    NothingLeft(content, m.1, m.2);
  }

  /** `update_frontmatter` followed by `parse_frontmatter`: the keys of the
      updates carry their new values, every other parsed key keeps its old
      value, the old keys keep their order with the new ones after them, and
      a body that followed a block comes back unchanged. */
  lemma UpdateThenParse(content: string, updates: Dict, k: string)
    requires IsDict(updates)
    requires GoodDict(UpdateAll(Parse(content).0, updates)) && UpdateAll(Parse(content).0, updates) != []
    ensures var fm := Parse(Updated(content, updates)).0;
            && Get(fm, k) == (if k in Keys(updates) then Get(updates, k) else Get(Parse(content).0, k))
            && Keys(fm) == Keys(Parse(content).0) + Fresh(Keys(updates), Keys(Parse(content).0))
    ensures FrontmatterMatch(content).Some? ==> Parse(Updated(content, updates)).1 == Parse(content).1
    ensures FrontmatterMatch(content).None? ==> Parse(Updated(content, updates)).1 == content[Swallowed(content)..]
  {
    var parsed := Parse(content);
    var m := FrontmatterMatch(content);
    if m.Some? {
      ParseShape(content, m.value.0, m.value.1, m.value.2);
    } else {
      ParseNoMatch(content);
    }
    RoundTrip(UpdateAll(parsed.0, updates), parsed.1);
    UpdateAllSpec(parsed.0, updates, k);
    if FrontmatterMatch(content).Some? {
      ParsedBodyKept(content);
    }
  }

  // ---------------------------------------------------------------
  // Quoted strings
  // ---------------------------------------------------------------

  lemma {:induction false} ReplaceCharLonger(s: string, c: char, r: string)
    requires c in s && |r| >= 2
    ensures |ReplaceChar(s, c, r)| > |s|
  {
    if s[0] != c {
      ReplaceCharLonger(s[1..], c, r);
    } else {
      ReplaceCharAtLeast(s[1..], c, r);
    }
  }

  lemma {:induction false} ReplaceCharAtLeast(s: string, c: char, r: string)
    requires |r| >= 1
    ensures |ReplaceChar(s, c, r)| >= |s|
  {
    if s != [] {
      ReplaceCharAtLeast(s[1..], c, r);
    }
  }

  /** A quoted string reads back with every `"` still escaped as `\"`: it
      survives a write and a read exactly when it holds no `"`. */
  lemma QuotedReadsEscaped(s: string)
    requires NeedsQuotes(s)
    ensures ParseValue(RenderValue(Str(s))) == Str(ReplaceChar(s, '"', "\\\""))
    ensures ParseValue(RenderValue(Str(s))) == Str(s) <==> '"' !in s
  {
    var w := ReplaceChar(s, '"', "\\\"");
    assert Inner(Quote(w)) == w;
    if '"' in s {
      ReplaceCharLonger(s, '"', "\\\"");
    } else {
      ReplaceCharNoOccurrence(s, '"', "\\\"");
    }
  }
}
