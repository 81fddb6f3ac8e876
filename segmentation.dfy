/** `SBER_DEBIT_2212.split_text_on_entries`: the statement text cut into one
    block per transaction, as `re.findall` does with the source's pattern.
    A block starts at a `dd.dd.dddd dd:dd` timestamp, runs to the first line
    break, and needs a second line starting with `dd.dd.dddd`, one whitespace
    character and an authorisation code (three digits, `-` or `0`). It then
    extends, as little as possible, up to the first terminator at or after the
    authorisation code: the page-continuation notice, the next timestamp or the
    transfer-details heading. The search resumes where a block ended. */
module Segmentation {
  import opened Wrappers
  import opened Patterns
  import opened Errors
  import Dates

  /** The operation's `dd.dd.dddd dd:dd` timestamp that opens every entry. */
  const Timestamp: Pattern := Dates.DateTimeShape
  const DateAndSpace: Pattern := Template("##.##.#### ")
  const ThreeDigits: Pattern := Template("###")
  const NextPage: Pattern := Template("Продолжение на следующей странице")
  const TransferDetails: Pattern := Template("Реквизиты для перевода")
  const Terminators: seq<Pattern> := [NextPage, Timestamp, TransferDetails]
  const NewLine: Pattern := [Lit('\n')]

  /** The lookahead `(?=\d{3,8}|-|0)`. */
  predicate AuthCodeAt(s: string, i: nat) {
    i < |s| && (s[i] == '-' || s[i] == '0' || PatAt(s, i, ThreeDigits))
  }

  predicate TerminatorAt(s: string, i: nat) {
    AnyAt(s, i, Terminators)
  }

  /** `q` is the first line break at or after `from`. */
  ghost predicate FirstNewLine(s: string, from: nat, q: nat) {
    from <= q < |s| && s[q] == '\n' && forall j :: from <= j < q ==> s[j] != '\n'
  }

  /** The line after the timestamp at `p` ends at `q`, and the next line opens with a
      processing date and an authorisation code. */
  ghost predicate SecondLine(s: string, p: nat, q: nat) {
    FirstNewLine(s, p + 16, q) && PatAt(s, q + 1, DateAndSpace) && AuthCodeAt(s, q + 12)
  }

  /** `e` is the first terminator at or after `from`. */
  ghost predicate FirstTerminator(s: string, from: nat, e: nat) {
    from <= e && TerminatorAt(s, e) && forall j :: from <= j < e ==> !TerminatorAt(s, j)
  }

  /** The source's pattern matches `s[p..e]`. */
  ghost predicate EntryMatch(s: string, p: nat, e: nat) {
    PatAt(s, p, Timestamp) && exists q: nat :: SecondLine(s, p, q) && FirstTerminator(s, q + 12, e)
  }

  /** `.*?\n`: the first line break at or after `from`. */
  function NewLineFrom(s: string, from: nat): (r: Option<nat>)
    decreases |s| - from
    ensures r.Some? ==> FirstNewLine(s, from, r.value)
    ensures r.None? ==> forall j :: from <= j < |s| ==> s[j] != '\n'
  {
    if from >= |s| then None
    else if s[from] == '\n' then Some(from)
    else NewLineFrom(s, from + 1)
  }

  /** Where the entry pattern, tried at `p`, ends; `None` when it does not match there. */
  function MatchAt(s: string, p: nat): (r: Option<nat>)
    ensures r.Some? ==> p + 28 <= r.value <= |s|
  {
    if !PatAt(s, p, Timestamp) then None
    else match NewLineFrom(s, p + 16)
      case None => None
      case Some(q) =>
        if PatAt(s, q + 1, DateAndSpace) && AuthCodeAt(s, q + 12) then FindAny(s, Terminators, q + 12)
        else None
  }

  /** Where `MatchAt` returns an end, the entry pattern matches from `p` to that end. */
  lemma MatchAtSound(s: string, p: nat)
    requires MatchAt(s, p).Some?
    ensures EntryMatch(s, p, MatchAt(s, p).value)
  {
    var q := NewLineFrom(s, p + 16).value;
    var e := MatchAt(s, p).value;
    assert FirstTerminator(s, q + 12, e);
    assert SecondLine(s, p, q);
  }

  /** Every match of the entry pattern at `p` ends where `MatchAt` says: the lazy `.*?`
      makes the match unique. */
  lemma MatchAtComplete(s: string, p: nat, e: nat)
    requires EntryMatch(s, p, e)
    ensures MatchAt(s, p) == Some(e)
  {
    var q: nat :| SecondLine(s, p, q) && FirstTerminator(s, q + 12, e);
    FirstNewLineFound(s, p + 16, q);
    FirstTerminatorFound(s, q + 12, e);
    MatchThrough(s, p, q, e);
  }

  /** The steps of `MatchAt` taken one by one. */
  lemma MatchThrough(s: string, p: nat, q: nat, e: nat)
    requires PatAt(s, p, Timestamp) && NewLineFrom(s, p + 16) == Some(q)
    requires PatAt(s, q + 1, DateAndSpace) && AuthCodeAt(s, q + 12)
    requires FindAny(s, Terminators, q + 12) == Some(e)
    ensures MatchAt(s, p) == Some(e)
  {
  }

  lemma FirstNewLineFound(s: string, from: nat, q: nat)
    requires FirstNewLine(s, from, q)
    ensures NewLineFrom(s, from) == Some(q)
  {
  }

  lemma FirstTerminatorFound(s: string, from: nat, e: nat)
    requires FirstTerminator(s, from, e)
    ensures FindAny(s, Terminators, from) == Some(e)
  {
    var r := FindAny(s, Terminators, from);
    assert r.Some? ==> TerminatorAt(s, r.value);
    assert e <= |s|;
  }

  /** Position `p` lies inside one of the spans. */
  ghost predicate Covered(spans: seq<(nat, nat)>, p: nat) {
    exists k :: 0 <= k < |spans| && spans[k].0 <= p < spans[k].1
  }

  /** A table of where a match tried at each position of a text ends: every end lies past its
      start and within the text. */
  ghost predicate EndsTable(ends: seq<Option<nat>>) {
    forall p :: 0 <= p < |ends| && ends[p].Some? ==> p < ends[p].value < |ends|
  }

  /** `re.findall` from position `pos` over the table of match ends: take the match at `pos`
      and resume where it ends, or move on by one. */
  function FindAll(ends: seq<Option<nat>>, pos: nat): (spans: seq<(nat, nat)>)
    requires EndsTable(ends)
    decreases |ends| - pos
    ensures forall k :: 0 <= k < |spans| ==>
              pos <= spans[k].0 < |ends| && ends[spans[k].0] == Some(spans[k].1)
    ensures forall i, j :: 0 <= i < j < |spans| ==> spans[i].1 <= spans[j].0
  {
    if pos >= |ends| then []
    else match ends[pos]
      case None => FindAll(ends, pos + 1)
      case Some(e) => [(pos, e)] + FindAll(ends, e)
  }

  /** Every position at or after `pos` where a match starts lies inside a span that `FindAll`
      reports: no match is skipped, and a match that starts inside an earlier one is the only
      kind left out. */
  lemma {:induction false} FindAllCovers(ends: seq<Option<nat>>, pos: nat, p: nat)
    requires EndsTable(ends) && pos <= p < |ends| && ends[p].Some?
    decreases |ends| - pos
    ensures Covered(FindAll(ends, pos), p)
  {
    match ends[pos]
    case None =>
      FindAllCovers(ends, pos + 1, p);
    case Some(e) =>
      var spans := FindAll(ends, pos);
      if p < e {
        assert spans[0].0 <= p < spans[0].1;
      } else {
        var rest := FindAll(ends, e);
        FindAllCovers(ends, e, p);
        var k :| 0 <= k < |rest| && rest[k].0 <= p < rest[k].1;
        assert spans[k + 1] == rest[k];
      }
  }

  /** Where a match of the entry pattern tried at each position of `text` ends. */
  function MatchEnds(text: string): (ends: seq<Option<nat>>)
    ensures |ends| == |text| + 1 && EndsTable(ends)
    ensures forall p :: 0 <= p < |ends| ==> ends[p] == MatchAt(text, p)
  {
    seq(|text| + 1, p requires 0 <= p <= |text| => MatchAt(text, p))
  }

  /** The spans of all entries in document order. */
  function EntrySpans(text: string): (spans: seq<(nat, nat)>)
    ensures forall k :: 0 <= k < |spans| ==> EntryMatch(text, spans[k].0, spans[k].1)
    ensures forall k :: 0 <= k < |spans| ==> spans[k].0 < spans[k].1 <= |text|
    ensures forall i, j :: 0 <= i < j < |spans| ==> spans[i].1 <= spans[j].0
    ensures forall p: nat, e: nat :: EntryMatch(text, p, e) ==> Covered(spans, p)
  {
    var ends := MatchEnds(text);
    var spans := FindAll(ends, 0);
    assert forall k :: 0 <= k < |spans| ==> EntryMatch(text, spans[k].0, spans[k].1) by {
      forall k | 0 <= k < |spans| ensures EntryMatch(text, spans[k].0, spans[k].1) {
        MatchAtSound(text, spans[k].0);
      }
    }
    assert forall p: nat, e: nat :: EntryMatch(text, p, e) ==> Covered(spans, p) by {
      forall p: nat, e: nat | EntryMatch(text, p, e) ensures Covered(spans, p) {
        MatchAtComplete(text, p, e);
        FindAllCovers(ends, 0, p);
      }
    }
    spans
  }

  /** The text of every entry in document order, or `NoEntriesFound` when the pattern
      matches nowhere. */
  function SplitTextOnEntries(text: string): (r: Result<seq<string>, Error>)
    ensures r.Err? <==> forall p: nat, e: nat :: !EntryMatch(text, p, e)
    ensures r.Err? ==> r.error == NoEntriesFound
    ensures r.Ok? ==>
              |r.value| == |EntrySpans(text)| &&
              forall k :: 0 <= k < |r.value| ==>
                r.value[k] == text[EntrySpans(text)[k].0..EntrySpans(text)[k].1]
  {
    var spans := EntrySpans(text);
    if |spans| == 0 then Err(NoEntriesFound)
    else
      assert EntryMatch(text, spans[0].0, spans[0].1);
      Ok(seq(|spans|, k requires 0 <= k < |spans| => text[spans[k].0..spans[k].1]))
  }

  lemma PatAtSlice(s: string, lo: nat, hi: nat, i: nat, pat: Pattern)
    requires lo <= hi <= |s| && PatAt(s, lo + i, pat) && i + |pat| <= hi - lo
    ensures PatAt(s[lo..hi], i, pat)
  {
    forall k | 0 <= k < |pat| ensures Matches(pat[k], s[lo..hi][i + k]) {
      assert s[lo..hi][i + k] == s[lo + i + k];
    }
  }

  /** A match read inside its own span: the timestamp opens it, its second line opens
      with a processing date and one whitespace character, the authorisation code follows
      in the text and the span ends at the first terminator from that code on. */
  lemma MatchInSpan(text: string, p: nat, e: nat)
    requires EntryMatch(text, p, e) && e <= |text|
    ensures p <= e
    ensures PatAt(text[p..e], 0, Timestamp)
    ensures exists q: nat ::
              FirstNewLine(text[p..e], 16, q) && PatAt(text[p..e], q + 1, DateAndSpace) &&
              AuthCodeAt(text, p + q + 12) && FirstTerminator(text, p + q + 12, e)
  {
    var q: nat :| SecondLine(text, p, q) && FirstTerminator(text, q + 12, e);
    var entry := text[p..e];
    PatAtSlice(text, p, e, 0, Timestamp);
    var q' := q - p;
    PatAtSlice(text, p, e, q' + 1, DateAndSpace);
    forall j | 16 <= j < q' ensures entry[j] != '\n' {
      assert entry[j] == text[p + j];
    }
    assert FirstNewLine(entry, 16, q');
  }
}
