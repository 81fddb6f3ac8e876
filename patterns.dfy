/** The pieces of Python's `re` that the statement extractor relies on:
    literal characters, case-insensitive literal characters, `\d` and `\s`,
    matched as a fixed-length pattern at one position and searched for from
    left to right, as `re.search` does. */
module Patterns {
  import opened Wrappers

  /** The characters of `str.isspace()`, which are also those `\s` matches in a `str` pattern. */
  predicate IsSpace(c: char) {
    c == ' ' || ('\t' <= c <= '\r') || ('\U{1C}' <= c <= '\U{1F}') || c == '\U{85}' || c == '\U{A0}'
    || c == '\U{1680}' || ('\U{2000}' <= c <= '\U{200A}') || c == '\U{2028}' || c == '\U{2029}'
    || c == '\U{202F}' || c == '\U{205F}' || c == '\U{3000}'
  }

  /** What `\d` matches, restricted to ASCII digits. */
  predicate IsDigit(c: char) {
    '0' <= c <= '9'
  }

  /** Lower-case form used by case-insensitive matching: Latin and Cyrillic capitals. */
  function Fold(c: char): char {
    if 'A' <= c <= 'Z' then (c as int + 32) as char
    else if '\U{410}' <= c <= '\U{42F}' then (c as int + 32) as char
    else if '\U{400}' <= c <= '\U{40F}' then (c as int + 80) as char
    else c
  }

  /** Folding twice is folding once. */
  lemma FoldIdempotent(c: char)
    ensures Fold(Fold(c)) == Fold(c)
  {
  }

  /** One position of a pattern. */
  datatype Class =
    | Lit(ch: char)     // exactly this character
    | NoCase(ch: char)  // this character under `re.IGNORECASE`
    | Digit             // `\d`
    | Space             // `\s`

  predicate Matches(cl: Class, c: char) {
    match cl
    case Lit(l) => c == l
    case NoCase(l) => Fold(c) == Fold(l)
    case Digit => IsDigit(c)
    case Space => IsSpace(c)
  }

  type Pattern = seq<Class>

  /** Pattern `p` matches the characters of `s` from index `i` on. */
  predicate PatAt(s: string, i: nat, p: Pattern) {
    i + |p| <= |s| && forall k :: 0 <= k < |p| ==> Matches(p[k], s[i + k])
  }

  /** One of the alternatives `alts` matches at `i`. */
  predicate AnyAt(s: string, i: nat, alts: seq<Pattern>)
    decreases |alts|
  {
    |alts| > 0 && (PatAt(s, i, alts[0]) || AnyAt(s, i, alts[1..]))
  }

  /** `p` occurs somewhere in `s`. */
  ghost predicate Contains(s: string, p: Pattern) {
    exists i: nat :: PatAt(s, i, p)
  }

  /** The first position at or after `from` where one of `alts` matches. */
  function FindAny(s: string, alts: seq<Pattern>, from: nat): (r: Option<nat>)
    decreases |s| + 1 - from
    ensures r.Some? ==> from <= r.value <= |s| && AnyAt(s, r.value, alts)
    ensures forall j: nat :: from <= j && (r.None? || j < r.value) ==> !AnyAt(s, j, alts)
  {
    if from > |s| then
      assert forall j: nat :: from <= j ==> !AnyAt(s, j, alts) by {
        forall j: nat | from <= j ensures !AnyAt(s, j, alts) {
          NoneBeyond(s, j, alts);
        }
      }
      None
    else if AnyAt(s, from, alts) then Some(from)
    else FindAny(s, alts, from + 1)
  }

  /** The first position at or after `from` where `p` matches. */
  function Find(s: string, p: Pattern, from: nat): (r: Option<nat>)
    ensures r.Some? ==> from <= r.value <= |s| && PatAt(s, r.value, p)
    ensures forall j: nat :: from <= j && (r.None? || j < r.value) ==> !PatAt(s, j, p)
  {
    var r := FindAny(s, [p], from);
    assert forall j: nat :: AnyAt(s, j, [p]) == PatAt(s, j, p) by {
      forall j: nat ensures AnyAt(s, j, [p]) == PatAt(s, j, p) {
        AnyAtOne(s, j, p);
      }
    }
    r
  }

  /** No alternative matches past the end of the text. */
  lemma {:induction false} NoneBeyond(s: string, i: nat, alts: seq<Pattern>)
    requires i > |s|
    ensures !AnyAt(s, i, alts)
    decreases |alts|
  {
    if |alts| > 0 {
      NoneBeyond(s, i, alts[1..]);
    }
  }

  /** With a single alternative, one of them matches exactly when it does. */
  lemma AnyAtOne(s: string, i: nat, p: Pattern)
    ensures AnyAt(s, i, [p]) == PatAt(s, i, p)
  {
    assert [p][1..] == [];
  }

  /** A search from the start finds `p` exactly when `p` occurs. */
  lemma FindFromStart(s: string, p: Pattern)
    ensures Find(s, p, 0).Some? <==> Contains(s, p)
  {
  }

  /** `#` stands for `\d`, a space for `\s`, any other character for itself. */
  function Template(t: string): (p: Pattern)
    ensures |p| == |t|
    ensures forall k :: 0 <= k < |t| ==> p[k] == (if t[k] == '#' then Digit else if t[k] == ' ' then Space else Lit(t[k]))
  {
    seq(|t|, k requires 0 <= k < |t| => if t[k] == '#' then Digit else if t[k] == ' ' then Space else Lit(t[k]))
  }

  /** The characters of `t`, each matching only itself. */
  function Literal(t: string): (p: Pattern)
    ensures |p| == |t|
    ensures forall k :: 0 <= k < |t| ==> p[k] == Lit(t[k])
  {
    seq(|t|, k requires 0 <= k < |t| => Lit(t[k]))
  }

  /** The characters of `t`, each matching itself in either case. */
  function IgnoreCase(t: string): (p: Pattern)
    ensures |p| == |t|
    ensures forall k :: 0 <= k < |t| ==> p[k] == NoCase(t[k])
  {
    seq(|t|, k requires 0 <= k < |t| => NoCase(t[k]))
  }

  /** A literal pattern matches exactly where the text holds that string. */
  lemma LiteralAt(s: string, i: nat, t: string)
    ensures PatAt(s, i, Literal(t)) <==> i + |t| <= |s| && s[i..i + |t|] == t
  {
    if i + |t| <= |s| && s[i..i + |t|] == t {
      forall k | 0 <= k < |t| ensures Matches(Literal(t)[k], s[i + k]) {
        assert s[i..i + |t|][k] == s[i + k];
      }
    }
  }

  function FoldAll(s: string): (r: string)
    ensures |r| == |s|
    ensures forall k :: 0 <= k < |s| ==> r[k] == Fold(s[k])
  {
    seq(|s|, k requires 0 <= k < |s| => Fold(s[k]))
  }

  /** A case-insensitive pattern cannot tell a text from its lower-case form. */
  lemma IgnoreCaseUnderFolding(s: string, i: nat, t: string)
    ensures PatAt(s, i, IgnoreCase(t)) <==> PatAt(FoldAll(s), i, IgnoreCase(t))
  {
    forall c: char ensures Fold(Fold(c)) == Fold(c) {
      FoldIdempotent(c);
    }
  }
}
