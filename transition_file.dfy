/**
 * Reading the transition section of a machine description
 * (BuK/TuringMachine.py, the loop at the end of `TuringMachine.__init__`):
 * every line that does not start with '#' is stripped, split at single
 * spaces into `q a p b D`, and stored as `transitions[(q, a)] = (p, b, D)`;
 * a later line for the same `(q, a)` replaces an earlier one.
 */
module TransitionFile {
  import opened Wrappers
  import opened Decimal
  import opened TuringSpec

  /** The characters Python's `str.strip()` removes: those for which `str.isspace()` holds. */
  predicate IsSpace(c: char) {
    c == ' ' || '\t' <= c <= '\r' || '\U{1C}' <= c <= '\U{1F}' || c == '\U{85}' || c == '\U{A0}' ||
    c == '\U{1680}' || '\U{2000}' <= c <= '\U{200A}' || c == '\U{2028}' || c == '\U{2029}' ||
    c == '\U{202F}' || c == '\U{205F}' || c == '\U{3000}'
  }

  /** The index of the first non-space character at or after i (|s| if there is none). */
  function SkipLeft(s: string, i: nat): (k: nat)
    requires i <= |s|
    ensures i <= k <= |s|
    ensures forall m :: i <= m < k ==> IsSpace(s[m])
    ensures k < |s| ==> !IsSpace(s[k])
    decreases |s| - i
  {
    if i < |s| && IsSpace(s[i]) then SkipLeft(s, i + 1) else i
  }

  /** The end of s[lo..j] once its trailing whitespace is dropped. */
  function SkipRight(s: string, lo: nat, j: nat): (k: nat)
    requires lo <= j <= |s|
    ensures lo <= k <= j
    ensures forall m :: k <= m < j ==> IsSpace(s[m])
    ensures lo < k ==> !IsSpace(s[k - 1])
    decreases j
  {
    if lo < j && IsSpace(s[j - 1]) then SkipRight(s, lo, j - 1) else j
  }

  /**
   * `str.strip()`: the slice between the leading and the trailing
   * whitespace, which neither starts nor ends with whitespace; everything cut
   * off on either side is whitespace.
   */
  function Strip(s: string): (r: string)
    ensures |r| <= |s|
    ensures r != [] ==> !IsSpace(r[0]) && !IsSpace(r[|r| - 1])
    ensures exists i, j :: 0 <= i <= j <= |s| && r == s[i..j] &&
             (forall m :: 0 <= m < i ==> IsSpace(s[m])) && (forall m :: j <= m < |s| ==> IsSpace(s[m]))
  {
    var i := SkipLeft(s, 0);
    var j := SkipRight(s, i, |s|);
    s[i..j]
  }

  /** Stripping twice strips nothing more. */
  lemma StripIdempotent(s: string)
    ensures Strip(Strip(s)) == Strip(s)
  {
    var r := Strip(s);
    assert SkipLeft(r, 0) == 0;
    if r != [] {
      assert SkipRight(r, 0, |r|) == |r|;
    }
  }

  /** `s.split(sep)`: the pieces between the separators, including empty ones. */
  function Split(s: string, sep: char): (r: seq<string>)
    ensures |r| >= 1
    ensures forall k :: 0 <= k < |r| ==> sep !in r[k]
  {
    if s == [] then [""]
    else
      var rest := Split(s[1..], sep);
      if s[0] == sep then [""] + rest else [[s[0]] + rest[0]] + rest[1..]
  }

  /** `sep.join(pieces)`. */
  function Join(pieces: seq<string>, sep: char): string
    requires |pieces| >= 1
  {
    if |pieces| == 1 then pieces[0] else pieces[0] + [sep] + Join(pieces[1..], sep)
  }

  /** Joining the pieces of a split gives back the string. */
  lemma {:induction false} JoinSplit(s: string, sep: char)
    ensures Join(Split(s, sep), sep) == s
    decreases |s|
  {
    if s != [] {
      var rest := Split(s[1..], sep);
      JoinSplit(s[1..], sep);
      if s[0] != sep {
        if |rest| > 1 {
          assert ([[s[0]] + rest[0]] + rest[1..])[1..] == rest[1..];
        }
      }
    }
  }

  /** Splitting a join of separator-free pieces gives back the pieces. */
  lemma {:induction false} SplitJoin(pieces: seq<string>, sep: char)
    requires |pieces| >= 1
    requires forall k :: 0 <= k < |pieces| ==> sep !in pieces[k]
    ensures Split(Join(pieces, sep), sep) == pieces
    decreases |pieces|, |pieces[0]|
  {
    if |pieces| == 1 {
      SplitFree(pieces[0], sep);
    } else if pieces[0] == [] {
      var tail := Join(pieces[1..], sep);
      assert Join(pieces, sep) == [sep] + tail;
      assert ([sep] + tail)[1..] == tail;
      SplitJoin(pieces[1..], sep);
    } else {
      var s := Join(pieces, sep);
      var shorter := [pieces[0][1..]] + pieces[1..];
      assert shorter[1..] == pieces[1..];
      assert Join(shorter, sep) == s[1..];
      SplitJoin(shorter, sep);
      assert [pieces[0][0]] + pieces[0][1..] == pieces[0];
    }
  }

  lemma {:induction false} SplitFree(s: string, sep: char)
    requires sep !in s
    ensures Split(s, sep) == [s]
    decreases |s|
  {
    if s != [] {
      SplitFree(s[1..], sep);
      assert [s[0]] + s[1..] == s;
    }
  }

  /** The exceptions a transition line can raise: a missing field, or a state that is not a number. */
  datatype LineError = IndexError | ValueError

  /** One transition `(q, a) -> rule`. */
  datatype Entry = Entry(q: State, a: Symbol, rule: Rule)

  /** What reading one line gives: None for a comment, an entry, or an exception. */
  type LineResult = Result<Option<Entry>, LineError>

  /** The fields of a line: `line.strip().split(' ')`. */
  function Fields(line: string): (f: seq<string>)
    ensures |f| >= 1
  {
    Split(Strip(line), ' ')
  }

  /**
   * One line of the transition section. Python evaluates the right-hand side
   * of the assignment first, so the fields are looked at in the order
   * int(f[2]), f[3], f[4], int(f[0]), f[1]: a bad target state is a
   * ValueError even on a short line, and a short line is an IndexError even
   * when its source state is not a number. Lines starting with '#' add
   * nothing, and an empty line has no first character to test.
   */
  function ParseLine(line: string): (r: LineResult)
    ensures line == [] ==> r == Failure(IndexError)
    ensures r == Success(None) <==> line != [] && line[0] == '#'
    ensures r.Success? && r.value.Some? ==>
              var f, e := Fields(line), r.value.value;
              |f| >= 5 && ParseNat(f[0]) == Some(e.q) && f[1] == e.a &&
              ParseNat(f[2]) == Some(e.rule.next) && f[3] == e.rule.write && e.rule.move == MoveOf(f[4])
    ensures r == Failure(ValueError) <==>
              line != [] && line[0] != '#' && |Fields(line)| >= 3 &&
              (ParseNat(Fields(line)[2]).None? || (|Fields(line)| >= 5 && ParseNat(Fields(line)[0]).None?))
    ensures r == Failure(IndexError) <==>
              line == [] || (line[0] != '#' && (|Fields(line)| <= 2 ||
              (|Fields(line)| <= 4 && ParseNat(Fields(line)[2]).Some?)))
  {
    if line == [] then Failure(IndexError)
    else if line[0] == '#' then Success(None)
    else
      var f := Fields(line);
      if |f| <= 2 then Failure(IndexError)
      else if ParseNat(f[2]).None? then Failure(ValueError)
      else if |f| <= 4 then Failure(IndexError)
      else if ParseNat(f[0]).None? then Failure(ValueError)
      else Success(Some(Entry(ParseNat(f[0]).value, f[1], Rule(ParseNat(f[2]).value, f[3], MoveOf(f[4])))))
  }

  /** A target state that is not a number is a ValueError, although fields 3 and 4 are missing. */
  lemma BadTargetBeforeShortLine()
    ensures ParseLine("1 a x\n") == Failure(ValueError)
  {
    assert Join(["x"], ' ') == "x";
    assert ["a", "x"][1..] == ["x"];
    assert ["1", "a", "x"][1..] == ["a", "x"];
    assert Join(["1", "a", "x"], ' ') == "1 a x";
    SplitJoin(["1", "a", "x"], ' ');
    StripNewline("1 a x");
    assert "1 a x\n" == "1 a x" + "\n";
    assert Strip("1 a x\n") == "1 a x";
    assert Fields("1 a x\n") == ["1", "a", "x"];
    assert ParseNat("x").None?;
  }

  /** A line with a good target state but no move field is an IndexError. */
  lemma ShortLineIndexError()
    ensures ParseLine("1 a 2 b\n") == Failure(IndexError)
  {
    assert Join(["b"], ' ') == "b";
    assert ["2", "b"][1..] == ["b"];
    assert ["a", "2", "b"][1..] == ["2", "b"];
    assert ["1", "a", "2", "b"][1..] == ["a", "2", "b"];
    assert Join(["1", "a", "2", "b"], ' ') == "1 a 2 b";
    SplitJoin(["1", "a", "2", "b"], ' ');
    StripNewline("1 a 2 b");
    assert "1 a 2 b\n" == "1 a 2 b" + "\n";
    assert Strip("1 a 2 b\n") == "1 a 2 b";
    assert Fields("1 a 2 b\n") == ["1", "a", "2", "b"];
    assert ParseNat("2").Some?;
  }

  /** A complete line whose source state is not a number is a ValueError. */
  lemma BadSourceValueError()
    ensures ParseLine("x a 2 b R\n") == Failure(ValueError)
  {
    JoinFive("x", "a", "2", "b", "R");
    SplitJoin(["x", "a", "2", "b", "R"], ' ');
    StripNewline("x a 2 b R");
    assert "x a 2 b R" == "x" + " " + "a" + " " + "2" + " " + "b" + " " + "R";
    assert "x a 2 b R\n" == "x a 2 b R" + "\n";
    assert Strip("x a 2 b R\n") == "x a 2 b R";
    assert Fields("x a 2 b R\n") == ["x", "a", "2", "b", "R"];
    assert ParseNat("2").Some? && ParseNat("x").None?;
  }

  /** A rule line as it would be written: `q a p b D` and a newline. */
  function FormatLine(q: State, a: Symbol, p: State, b: Symbol, d: string): string {
    NatToString(q) + " " + a + " " + NatToString(p) + " " + b + " " + d + "\n"
  }

  lemma StripNewline(body: string)
    requires body != [] && !IsSpace(body[0]) && !IsSpace(body[|body| - 1])
    ensures Strip(body + "\n") == body
  {
    var line := body + "\n";
    assert SkipLeft(line, 0) == 0;
    assert SkipRight(line, 0, |line|) == SkipRight(line, 0, |line| - 1) == |line| - 1;
    assert line[0..|line| - 1] == body;
  }

  lemma JoinFive(s0: string, s1: string, s2: string, s3: string, s4: string)
    ensures Join([s0, s1, s2, s3, s4], ' ') == s0 + " " + s1 + " " + s2 + " " + s3 + " " + s4
  {
    assert Join([s4], ' ') == s4;
    assert [s3, s4][1..] == [s4];
    assert Join([s3, s4], ' ') == s3 + " " + s4;
    assert [s2, s3, s4][1..] == [s3, s4];
    assert Join([s2, s3, s4], ' ') == s2 + " " + s3 + " " + s4;
    assert [s1, s2, s3, s4][1..] == [s2, s3, s4];
    assert Join([s1, s2, s3, s4], ' ') == s1 + " " + s2 + " " + s3 + " " + s4;
    assert [s0, s1, s2, s3, s4][1..] == [s1, s2, s3, s4];
  }

  /**
   * A rule line written as `q a p b D` is read back as the transition it
   * writes down, provided no token holds a space and the move token does not
   * end in whitespace.
   */
  lemma ParseFormatLine(q: State, a: Symbol, p: State, b: Symbol, d: string)
    requires ' ' !in a && ' ' !in b && ' ' !in d
    requires d != [] && !IsSpace(d[|d| - 1])
    ensures ParseLine(FormatLine(q, a, p, b, d)) == Success(Some(Entry(q, a, Rule(p, b, MoveOf(d)))))
  {
    var sq, sp := NatToString(q), NatToString(p);
    var body := sq + " " + a + " " + sp + " " + b + " " + d;
    assert FormatLine(q, a, p, b, d) == body + "\n";
    assert body[0] == sq[0] && body[|body| - 1] == d[|d| - 1];
    StripNewline(body);
    JoinFive(sq, a, sp, b, d);
    assert ' ' !in sq && ' ' !in sp;
    SplitJoin([sq, a, sp, b, d], ' ');
    ParseNatToString(q);
    ParseNatToString(p);
  }

  /** The line that made reading fail, counted from 0, and its exception. */
  datatype LineFailure = LineFailure(index: nat, error: LineError)

  /** Every line read on its own. */
  function ReadLines(lines: seq<string>): seq<LineResult> {
    seq(|lines|, i requires 0 <= i < |lines| => ParseLine(lines[i]))
  }

  /**
   * The table the loop of `__init__` builds from the lines' results, taken in
   * order: comments are skipped, entries are stored, the first exception ends
   * the reading.
   */
  function Collect(results: seq<LineResult>): (r: Result<Transitions, LineFailure>)
    ensures r.Failure? ==> r.error.index < |results|
    decreases |results|
  {
    if results == [] then Success(map[])
    else
      var n := |results| - 1;
      match Collect(results[..n])
      case Failure(e) => Failure(e)
      case Success(t) =>
        match results[n]
        case Failure(e) => Failure(LineFailure(n, e))
        case Success(None) => Success(t)
        case Success(Some(e)) => Success(t[(e.q, e.a) := e.rule])
  }

  /** The transition table of a description's transition lines, or the first line that raises. */
  function ParseTransitions(lines: seq<string>): Result<Transitions, LineFailure> {
    Collect(ReadLines(lines))
  }

  /** Result i is an entry for the key (q, a). */
  predicate DefinesKey(results: seq<LineResult>, i: int, key: (State, Symbol)) {
    0 <= i < |results| && results[i].Success? && results[i].value.Some? &&
    (results[i].value.value.q, results[i].value.value.a) == key
  }

  /** Once a prefix of the lines fails, reading the whole fails the same way. */
  lemma {:induction false} FailureSticks(results: seq<LineResult>, n: nat)
    requires n <= |results| && Collect(results[..n]).Failure?
    ensures Collect(results) == Collect(results[..n])
    decreases |results| - n
  {
    if n < |results| {
      var m := |results| - 1;
      assert results[..m][..n] == results[..n];
      FailureSticks(results[..m], n);
    } else {
      assert results[..n] == results;
    }
  }

  /** Reading succeeds exactly when every line is a comment or a rule line. */
  lemma {:induction false} CollectSucceeds(results: seq<LineResult>)
    ensures Collect(results).Success? <==> forall j :: 0 <= j < |results| ==> results[j].Success?
    decreases |results|
  {
    if results != [] {
      var n := |results| - 1;
      CollectSucceeds(results[..n]);
      assert forall j :: 0 <= j < n ==> results[..n][j] == results[j];
    }
  }

  /** Reading fails at the first line that raises, with that line's exception. */
  lemma FirstBadLineFails(results: seq<LineResult>, i: nat)
    requires i < |results| && results[i].Failure?
    requires forall j :: 0 <= j < i ==> results[j].Success?
    ensures Collect(results) == Failure(LineFailure(i, results[i].error))
  {
    assert results[..i + 1][..i] == results[..i];
    CollectSucceeds(results[..i]);
    FailureSticks(results, i + 1);
  }

  /** A failure names a line that raises, and every line before it was read. */
  lemma {:induction false} FailureIsFirstBadLine(results: seq<LineResult>)
    requires Collect(results).Failure?
    ensures var f := Collect(results).error;
      f.index < |results| && results[f.index] == Failure(f.error) &&
      forall j :: 0 <= j < f.index ==> results[j].Success?
    decreases |results|
  {
    var n := |results| - 1;
    var prefix := results[..n];
    assert forall j :: 0 <= j < n ==> prefix[j] == results[j];
    if Collect(prefix).Failure? {
      FailureIsFirstBadLine(prefix);
    } else {
      CollectSucceeds(prefix);
    }
  }

  /** When reading succeeds, a key that no line defines has no transition. */
  lemma {:induction false} UndefinedKeyAbsent(results: seq<LineResult>, key: (State, Symbol))
    requires Collect(results).Success?
    requires forall i :: 0 <= i < |results| ==> !DefinesKey(results, i, key)
    ensures key !in Collect(results).value
    decreases |results|
  {
    if results != [] {
      var n := |results| - 1;
      assert forall i :: 0 <= i < n ==> DefinesKey(results[..n], i, key) == DefinesKey(results, i, key);
      assert Collect(results[..n]).Success?;
      UndefinedKeyAbsent(results[..n], key);
      assert !DefinesKey(results, n, key);
    }
  }

  /**
   * When reading succeeds, a key some line defines has the transition of the
   * last line that defines it: later lines overwrite earlier ones.
   */
  lemma {:induction false} LastLineWins(results: seq<LineResult>, key: (State, Symbol), i: nat)
    requires Collect(results).Success?
    requires DefinesKey(results, i, key)
    requires forall j :: i < j < |results| ==> !DefinesKey(results, j, key)
    ensures key in Collect(results).value
    ensures Collect(results).value[key] == results[i].value.value.rule
    decreases |results|
  {
    var n := |results| - 1;
    assert Collect(results[..n]).Success?;
    if i < n {
      assert forall j :: 0 <= j < n ==> DefinesKey(results[..n], j, key) == DefinesKey(results, j, key);
      LastLineWins(results[..n], key, i);
      assert !DefinesKey(results, n, key);
    }
  }

  /**
   * The loop of `__init__`: skip comment lines, split every other line and
   * store its transition, replacing any earlier one for the same key.
   */
  method ReadTransitions(lines: seq<string>) returns (r: Result<Transitions, LineFailure>)
    ensures r == ParseTransitions(lines)
  {
    ghost var results := ReadLines(lines);
    var transitions: Transitions := map[];
    for i := 0 to |lines|
      invariant Collect(results[..i]) == Success(transitions)
    {
      assert results[..i + 1][..i] == results[..i];
      var line := lines[i];
      if line == [] {
        r := Failure(LineFailure(i, IndexError));
        FailureSticks(results, i + 1);
        return;
      }
      if line[0] == '#' {
        continue;
      }
      var f := Split(Strip(line), ' ');
      if |f| <= 2 {
        r := Failure(LineFailure(i, IndexError));
        FailureSticks(results, i + 1);
        return;
      }
      var p := ParseNat(f[2]);
      if p.None? {
        r := Failure(LineFailure(i, ValueError));
        FailureSticks(results, i + 1);
        return;
      }
      if |f| <= 4 {
        r := Failure(LineFailure(i, IndexError));
        FailureSticks(results, i + 1);
        return;
      }
      var q := ParseNat(f[0]);
      if q.None? {
        r := Failure(LineFailure(i, ValueError));
        FailureSticks(results, i + 1);
        return;
      }
      transitions := transitions[(q.value, f[1]) := Rule(p.value, f[3], MoveOf(f[4]))];
    }
    assert results[..|lines|] == results;
    return Success(transitions);
  }
}
