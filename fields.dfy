/** `utils.split_Sberbank_line`: a physical statement line cut into its
    fields, each stripped of surrounding whitespace, empty fields dropped. A
    line is cut at every tab and at every run of two or more whitespace
    characters (`\t|\s\s+`), so a single space stays inside a field. The
    helper's body is not part of this model; this is the contract the
    extractor relies on. */
module Fields {
  import opened Patterns
  import opened Strings

  /** What a field can be: non-empty, no tab, no whitespace at either end. */
  predicate IsField(f: string) {
    |f| > 0 && '\t' !in f && IsTrimmed(f)
  }

  /** The stripped, non-empty pieces of `segments`, in order. */
  function FieldsOf(segments: seq<string>): (r: seq<string>)
    requires forall k :: 0 <= k < |segments| ==> '\t' !in segments[k]
    ensures |r| <= |segments|
    ensures forall k :: 0 <= k < |r| ==> IsField(r[k])
  {
    if |segments| == 0 then []
    else
      TrimKeepsOut(segments[0], '\t');
      var t := Trim(segments[0]);
      (if t == "" then [] else [t]) + FieldsOf(segments[1..])
  }

  /** No two whitespace characters side by side. */
  predicate SingleSpaced(s: string) {
    forall i :: 0 <= i < |s| - 1 ==> !(IsSpace(s[i]) && IsSpace(s[i + 1]))
  }

  /** `s[i]` is where the line is cut: a tab, or a character of a whitespace run of two or more. */
  predicate CutAt(s: string, i: nat)
    requires i < |s|
  {
    s[i] == '\t' || (IsSpace(s[i]) && ((i > 0 && IsSpace(s[i - 1])) || (i + 1 < |s| && IsSpace(s[i + 1]))))
  }

  /** The line with every cut character written as a tab. */
  function MarkCuts(s: string): (r: string)
    ensures |r| == |s|
    ensures forall i :: 0 <= i < |s| ==> r[i] == if CutAt(s, i) then '\t' else s[i]
  {
    seq(|s|, i requires 0 <= i < |s| => if CutAt(s, i) then '\t' else s[i])
  }

  /** A line without whitespace runs has no cut other than its tabs. */
  lemma MarkCutsNone(s: string)
    requires SingleSpaced(s)
    ensures MarkCuts(s) == s
  {
    forall i | 0 <= i < |s| ensures !CutAt(s, i) || s[i] == '\t' {
      if i > 0 { assert !(IsSpace(s[i - 1]) && IsSpace(s[i])); }
    }
  }

  function SplitFields(line: string): (r: seq<string>)
    ensures forall k :: 0 <= k < |r| ==> IsField(r[k])
  {
    var marked := MarkCuts(line);
    SplitPieces(marked, '\t');
    FieldsOf(Split(marked, '\t'))
  }

  /** The fields written out on one line, separated by tabs. */
  function JoinFields(fields: seq<string>): string {
    Join(fields, '\t')
  }

  lemma {:induction false} FieldsOfFields(segments: seq<string>)
    requires forall k :: 0 <= k < |segments| ==> '\t' !in segments[k] && IsField(segments[k])
    ensures FieldsOf(segments) == segments
  {
    if |segments| > 0 {
      FieldsOfFields(segments[1..]);
      assert segments == [segments[0]] + segments[1..];
    }
  }

  /** A join starts with the first part's first character. */
  lemma JoinHead(parts: seq<string>, sep: char)
    requires |parts| > 0 && |parts[0]| > 0
    ensures |Join(parts, sep)| > 0 && Join(parts, sep)[0] == parts[0][0]
  {
  }

  /** Single-spaced fields joined by tabs leave no whitespace run. */
  lemma {:induction false} JoinSingleSpaced(fields: seq<string>)
    requires forall k :: 0 <= k < |fields| ==> IsField(fields[k]) && SingleSpaced(fields[k])
    ensures SingleSpaced(Join(fields, '\t'))
  {
    if |fields| > 1 {
      var a := fields[0];
      var b := Join(fields[1..], '\t');
      JoinSingleSpaced(fields[1..]);
      JoinHead(fields[1..], '\t');
      var s := a + ['\t'] + b;
      assert Join(fields, '\t') == s;
      forall i | 0 <= i < |s| - 1 ensures !(IsSpace(s[i]) && IsSpace(s[i + 1])) {
        if i < |a| - 1 {
          assert s[i] == a[i] && s[i + 1] == a[i + 1];
        } else if i == |a| - 1 {
          assert s[i] == a[|a| - 1];
        } else if i == |a| {
          assert s[i + 1] == b[0];
        } else {
          assert s[i] == b[i - |a| - 1] && s[i + 1] == b[i - |a|];
        }
      }
    }
  }

  /** Single-spaced fields joined with tabs split back into the same fields. */
  lemma SplitJoinFields(fields: seq<string>)
    requires forall k :: 0 <= k < |fields| ==> IsField(fields[k]) && SingleSpaced(fields[k])
    ensures SplitFields(JoinFields(fields)) == fields
  {
    JoinSingleSpaced(fields);
    MarkCutsNone(JoinFields(fields));
    if |fields| == 0 {
      assert Split("", '\t') == [""];
    } else {
      SplitJoin(fields, '\t');
      FieldsOfFields(fields);
    }
  }

  /** Two spaces cut a line as a tab does: a line laid out as `11.08.2022\t214722  6,00 BYN`
      splits into the date, the code and the amount with its currency. */
  lemma CutAtSpaceRun(a: string, b: string, c: string)
    requires IsField(a) && SingleSpaced(a) && IsField(b) && SingleSpaced(b) && IsField(c) && SingleSpaced(c)
    ensures SplitFields(a + "\t" + b + "  " + c) == [a, b, c]
  {
    var s := a + "\t" + b + "  " + c;
    var m := a + "\t" + b + "\t\t" + c;
    MarkedRun(a, b, c);
    assert [a, b, "", c][1..] == [b, "", c] && [b, "", c][1..] == ["", c] && ["", c][1..] == [c];
    assert Join(["", c], '\t') == "\t" + c;
    assert Join([b, "", c], '\t') == b + "\t" + "\t" + c;
    assert Join([a, b, "", c], '\t') == m;
    SplitJoin([a, b, "", c], '\t');
    FieldsOfFields([c]);
    assert FieldsOf(["", c]) == [c];
    FieldsOfFields([a, b]);
    assert FieldsOf([a, b, "", c]) == [a] + FieldsOf([b, "", c]);
    assert FieldsOf([b, "", c]) == [b] + FieldsOf(["", c]);
  }

  /** Marking the cuts of such a line turns the tab and both spaces into tabs. */
  lemma MarkedRun(a: string, b: string, c: string)
    requires IsField(a) && SingleSpaced(a) && IsField(b) && SingleSpaced(b) && IsField(c) && SingleSpaced(c)
    ensures MarkCuts(a + "\t" + b + "  " + c) == a + "\t" + b + "\t\t" + c
  {
    var s := a + "\t" + b + "  " + c;
    var m := a + "\t" + b + "\t\t" + c;
    var p := |a| + 1;
    var q := p + |b|;
    forall i | 0 <= i < |s| ensures MarkCuts(s)[i] == m[i] {
      if i < |a| {
        assert s[i] == a[i] && m[i] == a[i];
        if i > 0 { assert s[i - 1] == a[i - 1]; }
        if i + 1 < |a| { assert s[i + 1] == a[i + 1]; }
      } else if i == |a| {
        assert s[i] == '\t' && m[i] == '\t';
      } else if i < q {
        assert s[i] == b[i - p] && m[i] == b[i - p];
        if i > p { assert s[i - 1] == b[i - 1 - p]; }
        if i + 1 < q { assert s[i + 1] == b[i + 1 - p]; }
      } else if i < q + 2 {
        assert s[q] == ' ' && s[q + 1] == ' ' && m[i] == '\t';
      } else {
        assert s[i] == c[i - q - 2] && m[i] == c[i - q - 2];
        if i > q + 2 { assert s[i - 1] == c[i - 3 - q]; }
        if i + 1 < |s| { assert s[i + 1] == c[i - 1 - q]; }
      }
    }
  }
}
