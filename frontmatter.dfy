/** The YAML front matter of a saved article: the small line parser that
    reads the `---` block at the top of `content.md`, and the printer that
    writes it back with some fields updated. A Python dict is an
    insertion-ordered list of distinct keys. */
module Frontmatter {
  import opened Wrappers
  import opened Text
  import opened Seqs

  /** A front-matter value: a string, a list of strings, or another scalar
      (a number, say) written with `str`. */
  datatype Value = Str(s: string) | List(items: seq<string>) | Scalar(text: string)

  /** An insertion-ordered dict from keys to values. */
  type Dict = seq<(string, Value)>

  // ---------------------------------------------------------------
  // Dicts
  // ---------------------------------------------------------------

  function Keys(d: Dict): (r: seq<string>)
    ensures |r| == |d| && forall i :: 0 <= i < |d| ==> r[i] == d[i].0
  {
    seq(|d|, i requires 0 <= i < |d| => d[i].0)
  }

  /** A dict's keys are distinct. */
  predicate IsDict(d: Dict) {
    NoDuplicates(Keys(d))
  }

  /** `d.get(k)`. */
  function Get(d: Dict, k: string): (r: Option<Value>)
    ensures r.None? <==> k !in Keys(d)
  {
    if d == [] then None
    else if d[0].0 == k then Some(d[0].1)
    else Get(d[1..], k)
  }

  /** `d[k] = v`: an existing key keeps its place, a new one goes last. */
  function Put(d: Dict, k: string, v: Value): (r: Dict)
    ensures Keys(r) == if k in Keys(d) then Keys(d) else Keys(d) + [k]
  {
    if d == [] then [(k, v)]
    else if d[0].0 == k then [(k, v)] + d[1..]
    else [d[0]] + Put(d[1..], k, v)
  }

  /** `d.update(u)`. */
  function UpdateAll(d: Dict, u: Dict): Dict
    decreases |u|
  {
    if u == [] then d else UpdateAll(Put(d, u[0].0, u[0].1), u[1..])
  }

  lemma {:induction false} PutGet(d: Dict, k: string, v: Value, k': string)
    ensures Get(Put(d, k, v), k') == if k' == k then Some(v) else Get(d, k')
  {
    if d != [] && d[0].0 != k {
      PutGet(d[1..], k, v, k');
    }
  }

  lemma {:induction false} PutIsDict(d: Dict, k: string, v: Value)
    requires IsDict(d)
    ensures IsDict(Put(d, k, v))
  {
    var ks := Keys(d);
    if k !in ks {
      forall i, j | 0 <= i < j < |ks| + 1 ensures (ks + [k])[i] != (ks + [k])[j] {
        if j == |ks| {
          assert ks[i] in ks;
        }
      }
    }
  }

  /** `update_frontmatter`'s `fm.update(updates)`: the keys of `u` carry
      its values, every other key keeps its old value; the old keys keep
      their order and the new ones follow in the order of `u`. */
  lemma UpdateAllSpec(d: Dict, u: Dict, k: string)
    requires IsDict(d) && IsDict(u)
    ensures IsDict(UpdateAll(d, u))
    ensures Get(UpdateAll(d, u), k) == if k in Keys(u) then Get(u, k) else Get(d, k)
    ensures Keys(UpdateAll(d, u)) == Keys(d) + Fresh(Keys(u), Keys(d))
  {
    UpdateAllIsDict(d, u);
    UpdateAllGet(d, u, k);
    UpdateAllKeys(d, u);
  }

  lemma KeysTail(u: Dict)
    requires u != []
    ensures Keys(u) == [u[0].0] + Keys(u[1..])
  {
  }

  lemma {:induction false} UpdateAllIsDict(d: Dict, u: Dict)
    requires IsDict(d)
    ensures IsDict(UpdateAll(d, u))
    decreases |u|
  {
    if u != [] {
      PutIsDict(d, u[0].0, u[0].1);
      UpdateAllIsDict(Put(d, u[0].0, u[0].1), u[1..]);
    }
  }

  lemma {:induction false} UpdateAllGet(d: Dict, u: Dict, k: string)
    requires IsDict(u)
    ensures Get(UpdateAll(d, u), k) == if k in Keys(u) then Get(u, k) else Get(d, k)
    decreases |u|
  {
    if u != [] {
      KeysTail(u);
      assert IsDict(u[1..]) by {
        assert Keys(u[1..]) == Keys(u)[1..];
      }
      UpdateAllGet(Put(d, u[0].0, u[0].1), u[1..], k);
      PutGet(d, u[0].0, u[0].1, k);
      if k in Keys(u[1..]) {
        var j :| 0 <= j < |u| - 1 && Keys(u[1..])[j] == k;
        assert Keys(u)[j + 1] == k && Keys(u)[0] == u[0].0;
      }
    }
  }

  lemma {:induction false} UpdateAllKeys(d: Dict, u: Dict)
    ensures Keys(UpdateAll(d, u)) == Keys(d) + Fresh(Keys(u), Keys(d))
    decreases |u|
  {
    if u != [] {
      KeysTail(u);
      UpdateAllKeys(Put(d, u[0].0, u[0].1), u[1..]);
      FreshCons(u[0].0, Keys(u[1..]), Keys(d));
    }
  }

  // ---------------------------------------------------------------
  // The block
  // ---------------------------------------------------------------

  /** The end of the run of whitespace starting at `i`. */
  function SpaceEnd(s: string, i: nat): (e: nat)
    requires i <= |s|
    ensures i <= e <= |s| && (e == |s| || !IsSpace(s[e]))
    ensures forall j :: i <= j < e ==> IsSpace(s[j])
    decreases |s| - i
  {
    if i < |s| && IsSpace(s[i]) then SpaceEnd(s, i + 1) else i
  }

  /** The last newline in `s[lo..hi]`. */
  function LastNewline(s: string, lo: nat, hi: nat): (r: Option<nat>)
    requires lo <= hi <= |s|
    ensures r.Some? ==> lo <= r.value < hi && s[r.value] == '\n' && forall j :: r.value < j < hi ==> s[j] != '\n'
    ensures r.None? ==> forall j :: lo <= j < hi ==> s[j] != '\n'
    decreases hi - lo
  {
    if lo == hi then None
    else if s[hi - 1] == '\n' then Some(hi - 1)
    else LastNewline(s, lo, hi - 1)
  }

  /** The closing delimiter `\n---\s*\n` at `q`: where its last newline is,
      `\s*` taking as much as it can. */
  function CloseAt(s: string, q: nat): (r: Option<nat>)
    requires q <= |s|
    ensures r.Some? ==> q + 4 <= r.value < |s| && s[q..q + 4] == "\n---" && s[r.value] == '\n'
  {
    if q + 4 <= |s| && s[q..q + 4] == "\n---" then LastNewline(s, q + 4, SpaceEnd(s, q + 4)) else None
  }

  /** The lazy `(.*?)`: the first position from `q` on where the closing
      delimiter matches, and the end of that delimiter. */
  function FirstClose(s: string, q: nat): (r: Option<(nat, nat)>)
    requires q <= |s|
    ensures r.Some? ==> q <= r.value.0 < |s| && CloseAt(s, r.value.0) == Some(r.value.1)
    ensures r.Some? ==> forall j :: q <= j < r.value.0 ==> CloseAt(s, j).None?
    ensures r.None? ==> forall j :: q <= j <= |s| ==> CloseAt(s, j).None?
    decreases |s| - q
  {
    if q == |s| then None
    else match CloseAt(s, q)
      case Some(e) => Some((q, e))
      case None => FirstClose(s, q + 1)
  }

  /** The opening `---\s*\n`, trying the newlines of the whitespace run below
      `hi` from the last one down, as the greedy `\s*` backtracks. */
  function MatchFrom(s: string, hi: nat): (r: Option<(nat, nat, nat)>)
    requires 3 <= hi <= |s|
    decreases hi
  {
    match LastNewline(s, 3, hi)
    case None => None
    case Some(p) =>
      match FirstClose(s, p + 1)
      case Some(close) => Some((p, close.0, close.1))
      case None => MatchFrom(s, p)
  }

  /** `_FRONTMATTER_RE.match(content)`: the newline ending the opening
      delimiter, the newline starting the closing one, and the newline ending
      it. The block is what lies strictly between the first two. */
  function FrontmatterMatch(s: string): (r: Option<(nat, nat, nat)>)
    ensures r.Some? ==> 3 <= r.value.0 < r.value.1 < r.value.2 < |s|
  {
    if StartsWith(s, "---") then MatchFromShape(s, SpaceEnd(s, 3)); MatchFrom(s, SpaceEnd(s, 3)) else None
  }

  /** A match opens with `---` and whitespace up to a newline at `p`, and
      closes with `\n---` at `q`, whitespace and a newline at `e`. */
  lemma MatchShape(s: string)
    requires FrontmatterMatch(s).Some?
    ensures var (p, q, e) := FrontmatterMatch(s).value;
            && StartsWith(s, "---") && 3 <= p < q && q + 4 <= e < |s|
            && s[p] == '\n' && (forall j :: 3 <= j < p ==> IsSpace(s[j]))
            && s[q..q + 4] == "\n---" && s[e] == '\n' && (forall j :: q + 4 <= j < e ==> IsSpace(s[j]))
  {
    MatchFromShape(s, SpaceEnd(s, 3));
  }

  /** The delimiter characters of a match at `(p, q, e)`. */
  lemma MatchEnds(s: string, p: nat, q: nat, e: nat)
    requires FrontmatterMatch(s) == Some((p, q, e))
    ensures StartsWith(s, "---") && 3 <= p < q && q + 4 <= e < |s|
    ensures s[p] == '\n' && s[q..q + 4] == "\n---" && s[e] == '\n'
  {
    MatchShape(s);
  }

  lemma {:induction false} MatchFromShape(s: string, hi: nat)
    requires 3 <= hi <= |s| && forall j :: 3 <= j < hi ==> IsSpace(s[j])
    ensures MatchFrom(s, hi).Some? ==>
              && 3 <= MatchFrom(s, hi).value.0 < hi && MatchFrom(s, hi).value.0 < MatchFrom(s, hi).value.1
              && s[MatchFrom(s, hi).value.0] == '\n'
              && CloseShaped(s, MatchFrom(s, hi).value.1, MatchFrom(s, hi).value.2)
    decreases hi
  {
    match LastNewline(s, 3, hi)
    case None =>
    case Some(p) =>
      match FirstClose(s, p + 1)
      case Some(close) =>
        CloseShape(s, close.0, close.1);
      case None =>
        MatchFromShape(s, p);
  }

  /** `\n---` at `q`, then whitespace up to a newline at `e`. */
  predicate CloseShaped(s: string, q: nat, e: nat) {
    && q + 4 <= e < |s| && s[q..q + 4] == "\n---" && s[e] == '\n'
    && forall j :: q + 4 <= j < e ==> IsSpace(s[j])
  }

  /** A closing delimiter is `\n---`, then whitespace up to its last newline. */
  lemma CloseShape(s: string, q: nat, e: nat)
    requires q <= |s| && CloseAt(s, q) == Some(e)
    ensures CloseShaped(s, q, e)
  {
    assert e < SpaceEnd(s, q + 4);
  }

  // ---------------------------------------------------------------
  // Lines and values
  // ---------------------------------------------------------------

  /** Python's `v[1:-1]`. */
  function Inner(v: string): (r: string)
    ensures |v| >= 2 ==> r == v[1..|v| - 1]
  {
    if |v| >= 2 then v[1..|v| - 1] else ""
  }

  predicate Enclosed(v: string, open: char, close: char) {
    |v| >= 1 && v[0] == open && v[|v| - 1] == close
  }

  /** The items of `[a, b]`: each stripped, then its double and single quotes
      stripped; blank items are dropped. */
  function Items(parts: seq<string>): seq<string> {
    if parts == [] then []
    else (if Strip(parts[0]) != [] then [StripChar(StripChar(Strip(parts[0]), '"'), '\'')] else [])
         + Items(parts[1..])
  }

  /** How `parse_frontmatter` reads a stripped value. (Its last test, for
      `""` and `''`, is never reached: the first two already take them.) */
  function ParseValue(v: string): Value {
    if Enclosed(v, '"', '"') || Enclosed(v, '\'', '\'') then Str(Inner(v))
    else if v == "[]" then List([])
    else if Enclosed(v, '[', ']') then List(Items(Split(Inner(v), ',')))
    else Str(v)
  }

  /** One line of the block: blank lines, comments and lines without a
      colon are skipped; the key is the stripped text before the first colon
      and the value is read from the stripped text after it. */
  function ParseLine(line: string): (r: Option<(string, Value)>)
    ensures r.Some? ==> IsStripped(r.value.0) && ':' !in r.value.0
  {
    var l := Strip(line);
    if l == [] || StartsWith(l, "#") || ':' !in l then None
    else
      var c := IndexOf(l, ':');
      StripIsStripped(l[..c]);
      StripSubset(l[..c]);
      Some((Strip(l[..c]), ParseValue(Strip(l[c + 1..]))))
  }

  /** Stripping keeps only characters of the string. */
  lemma StripSubset(s: string)
    ensures forall c :: c in Strip(s) ==> c in s
  {
    LStripShape(s);
    RStripShape(LStrip(s));
  }

  /** The fields read from the block's lines, a later line for a key
      overwriting an earlier one in place. */
  function Fields(lines: seq<string>): Dict {
    if lines == [] then []
    else
      var d := Fields(lines[..|lines| - 1]);
      match ParseLine(lines[|lines| - 1])
      case None => d
      case Some((k, v)) => Put(d, k, v)
  }

  /** What `parse_frontmatter` returns. */
  function Parse(content: string): (Dict, string) {
    ParseFrom(content, FrontmatterMatch(content))
  }

  /** What `parse_frontmatter` returns for a given match. */
  function ParseFrom(content: string, m: Option<(nat, nat, nat)>): (Dict, string)
    requires m.Some? ==> m.value.0 < m.value.1 < m.value.2 < |content|
  {
    match m
    case None => ([], content)
    case Some(m) => (BlockFields(content, m.0, m.1), content[m.2 + 1..])
  }

  /** The fields read from the lines of the block `content[p + 1..q]`. */
  function BlockFields(content: string, p: nat, q: nat): Dict
    requires p < q <= |content|
  {
    Fields(Split(content[p + 1..q], '\n'))
  }

  /** `parse_frontmatter`. */
  method ParseFrontmatter(content: string) returns (fm: Dict, body: string)
    ensures fm == Parse(content).0 && body == Parse(content).1
  {
    var m := FrontmatterMatch(content);
    if m.None? {
      return [], content;
    }
    var p, q, e := m.value.0, m.value.1, m.value.2;
    fm := ReadFields(Split(content[p + 1..q], '\n'));
    body := content[e + 1..];
    assert m == Some((p, q, e));
    ParseFromFields(content, p, q, e);
    ParseFromBody(content, p, q, e);
    BlockFieldsIs(content, p, q);
  }

  /** `Parse` reads the block and the body of the match there is. */
  lemma ParseAt(content: string, p: nat, q: nat, e: nat)
    requires FrontmatterMatch(content) == Some((p, q, e))
    ensures p < q < e < |content|
    ensures Parse(content) == ParseFrom(content, Some((p, q, e)))
  {
  }

  /** The fields `parse_frontmatter` returns for a match at `(p, q, e)`. */
  lemma ParseFromFields(content: string, p: nat, q: nat, e: nat)
    requires p < q < e < |content|
    ensures ParseFrom(content, Some((p, q, e))).0 == BlockFields(content, p, q)
  {
  }

  /** The body `parse_frontmatter` returns for a match at `(p, q, e)`. */
  lemma ParseFromBody(content: string, p: nat, q: nat, e: nat)
    requires p < q < e < |content|
    ensures ParseFrom(content, Some((p, q, e))).1 == content[e + 1..]
  {
  }

  lemma BlockFieldsIs(content: string, p: nat, q: nat)
    requires p < q <= |content|
    ensures BlockFields(content, p, q) == Fields(Split(content[p + 1..q], '\n'))
  {
  }

  /** The line loop of `parse_frontmatter`. */
  method ReadFields(lines: seq<string>) returns (fm: Dict)
    ensures fm == Fields(lines)
  {
    fm := [];
    var i := 0;
    while i < |lines|
      invariant 0 <= i <= |lines|
      invariant fm == Fields(lines[..i])
    {
      assert lines[..i + 1][..i] == lines[..i];
      var parsed := ParseLine(lines[i]);
      if parsed.Some? {
        fm := Put(fm, parsed.value.0, parsed.value.1);
      }
      i := i + 1;
    }
    assert lines[..i] == lines;
  }

  /** Without a front-matter block the content is all body and there are
      no fields. */
  lemma ParseNoMatch(content: string)
    requires FrontmatterMatch(content).None?
    ensures Parse(content) == ([], content)
  {
  }

  /** With a block matched at `(p, q, e)`, the content is the opening, the
      block, the closing and the body in that order, the body being exactly
      what follows the closing delimiter, and the fields form a dict. */
  lemma ParseShape(content: string, p: nat, q: nat, e: nat)
    requires FrontmatterMatch(content) == Some((p, q, e))
    ensures content == content[..p + 1] + content[p + 1..q] + content[q..e + 1] + Parse(content).1
    ensures StartsWith(content[..p + 1], "---") && EndsWith(content[..p + 1], "\n")
    ensures StartsWith(content[q..e + 1], "\n---") && EndsWith(content[q..e + 1], "\n")
    ensures IsDict(Parse(content).0)
  {
    MatchEnds(content, p, q, e);
    ParseAt(content, p, q, e);
    ParseFromFields(content, p, q, e);
    ParseFromBody(content, p, q, e);
    BlockFieldsIs(content, p, q);
    Pieces(content, p, q, e, Parse(content).1);
    FieldsIsDict(Split(content[p + 1..q], '\n'));
  }

  lemma Pieces(s: string, p: nat, q: nat, e: nat, body: string)
    requires 3 <= p < q && q + 4 <= e < |s| && StartsWith(s, "---") && s[p] == '\n'
    requires s[q..q + 4] == "\n---" && s[e] == '\n' && body == s[e + 1..]
    ensures s == s[..p + 1] + s[p + 1..q] + s[q..e + 1] + body
    ensures StartsWith(s[..p + 1], "---") && EndsWith(s[..p + 1], "\n")
    ensures StartsWith(s[q..e + 1], "\n---") && EndsWith(s[q..e + 1], "\n")
  {
    var a, b, c, d := s[..p + 1], s[p + 1..q], s[q..e + 1], s[e + 1..];
    assert s[..q] == a + b;
    assert s[..e + 1] == s[..q] + c;
    assert s == s[..e + 1] + d;
    assert a[..3] == s[..3];
    assert c[..4] == s[q..q + 4];
  }

  lemma {:induction false} FieldsIsDict(lines: seq<string>)
    ensures IsDict(Fields(lines))
  {
    if lines != [] {
      FieldsIsDict(lines[..|lines| - 1]);
      match ParseLine(lines[|lines| - 1])
      case None =>
      case Some((k, v)) => PutIsDict(Fields(lines[..|lines| - 1]), k, v);
    }
  }

  // ---------------------------------------------------------------
  // Writing the block back
  // ---------------------------------------------------------------

  /** When `update_frontmatter` writes a string value double-quoted. */
  predicate NeedsQuotes(s: string) {
    ':' in s || '"' in s || StartsWith(s, "[")
  }

  function Quote(x: string): string {
    "\"" + x + "\""
  }

  function Quoted(xs: seq<string>): (r: seq<string>)
    ensures |r| == |xs| && forall i :: 0 <= i < |xs| ==> r[i] == Quote(xs[i])
  {
    seq(|xs|, i requires 0 <= i < |xs| => Quote(xs[i]))
  }

  /** How one value is written: lists as `[]` or `["a", "b"]`, strings that
      need it double-quoted with `"` escaped as `\"`, other strings and
      scalars as they are. */
  function RenderValue(v: Value): string {
    match v
    case List(xs) => if xs == [] then "[]" else "[" + Join(Quoted(xs), ", ") + "]"
    case Str(s) => if NeedsQuotes(s) then Quote(ReplaceChar(s, '"', "\\\"")) else s
    case Scalar(t) => t
  }

  function RenderLine(k: string, v: Value): string {
    k + ": " + RenderValue(v)
  }

  /** One line per field, in the dict's order. */
  function RenderLines(d: Dict): (r: seq<string>)
    ensures |r| == |d| && forall i :: 0 <= i < |d| ==> r[i] == RenderLine(d[i].0, d[i].1)
  {
    seq(|d|, i requires 0 <= i < |d| => RenderLine(d[i].0, d[i].1))
  }

  /** The text written for fields `d` followed by `body`. */
  function Render(d: Dict, body: string): string {
    Join(["---"] + RenderLines(d) + ["---", ""], "\n") + body
  }

  /** What `update_frontmatter(content, updates)` returns. */
  function Updated(content: string, updates: Dict): string {
    var parsed := Parse(content);
    Render(UpdateAll(parsed.0, updates), parsed.1)
  }

  /** `update_frontmatter`. */
  method UpdateFrontmatter(content: string, updates: Dict) returns (out: string)
    ensures out == Updated(content, updates)
  {
    var fm, body := ParseFrontmatter(content);
    fm := UpdateAll(fm, updates);
    ghost var all := RenderLines(fm);
    var lines := ["---"];
    var i := 0;
    while i < |fm|
      invariant 0 <= i <= |fm|
      invariant lines == ["---"] + all[..i]
    {
      PrefixSnoc(all, i);
      lines := lines + [RenderLine(fm[i].0, fm[i].1)];
      i := i + 1;
    }
    assert all[..i] == all;
    lines := lines + ["---", ""];
    out := Join(lines, "\n") + body;
  }
}
