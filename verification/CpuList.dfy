/** The text form of CPU lists: runs of consecutive CPUs written as ranges, in the list's own order. */
module CpuList {
  import opened Pieces
  import opened Rules
  import opened Text

  // ---- Decimal numbers -----------------------------------------------------------------------

  predicate IsDigits(s: string) {
    s != [] && forall i :: 0 <= i < |s| ==> '0' <= s[i] <= '9'
  }

  function Value(s: string): nat
    requires forall i :: 0 <= i < |s| ==> '0' <= s[i] <= '9'
  {
    if s == [] then 0 else 10 * Value(s[..|s| - 1]) + (s[|s| - 1] - '0') as nat
  }

  function Decimal(n: nat): (r: string)
    ensures IsDigits(r)
  {
    if n < 10 then ['0' + n as char] else Decimal(n / 10) + ['0' + (n % 10) as char]
  }

  lemma {:induction false} ValueOfDecimal(n: nat)
    ensures Value(Decimal(n)) == n
  {
    var s := Decimal(n);
    if n < 10 {
      assert s[..|s| - 1] == [];
    } else {
      ValueOfDecimal(n / 10);
      assert s[..|s| - 1] == Decimal(n / 10);
    }
  }

  // ---- Runs of consecutive CPUs --------------------------------------------------------------

  datatype Run = Run(first: nat, last: nat)

  function Range(first: nat, last: nat): (r: seq<nat>)
    ensures |r| == if first <= last then last + 1 - first else 0
    ensures forall i :: 0 <= i < |r| ==> r[i] == first + i
  {
    if first <= last then seq(last + 1 - first, i requires 0 <= i => first + i) else []
  }

  function Expand(runs: seq<Run>): seq<nat> {
    if runs == [] then [] else Range(runs[0].first, runs[0].last) + Expand(runs[1..])
  }

  ghost predicate Apart(run: Run, rest: seq<Run>) {
    rest == [] || rest[0].first != run.last + 1
  }

  /** No run is empty and no two neighbours could be one run. */
  ghost predicate Maximal(runs: seq<Run>) {
    runs == [] || (runs[0].first <= runs[0].last && Apart(runs[0], runs[1..]) && Maximal(runs[1..]))
  }

  function RunsOf(cpus: seq<nat>): (r: seq<Run>)
    ensures Expand(r) == cpus && Maximal(r)
    ensures cpus != [] ==> r != [] && r[0].first == cpus[0]
  {
    if cpus == [] then []
    else
      var rest := RunsOf(cpus[1..]);
      if rest != [] && rest[0].first == cpus[0] + 1 then
        assert Range(cpus[0], rest[0].last) == [cpus[0]] + Range(rest[0].first, rest[0].last);
        [Run(cpus[0], rest[0].last)] + rest[1..]
      else
        assert Range(cpus[0], cpus[0]) == [cpus[0]];
        [Run(cpus[0], cpus[0])] + rest
  }

  /** Where the first run of a list ends. */
  lemma FirstRun(runs: seq<Run>, s: seq<nat>, n: nat)
    requires Maximal(runs) && runs != [] && s == Expand(runs) && n == runs[0].last + 1 - runs[0].first
    ensures n <= |s| && s[n..] == Expand(runs[1..])
    ensures forall i :: 0 <= i < n ==> s[i] == runs[0].first + i
    ensures |s| > n ==> s[n] != runs[0].last + 1
  {
    var rest := runs[1..];
    assert s[n..] == Expand(rest);
    if |s| > n {
      assert s[n] == Expand(rest)[0] == rest[0].first;
    }
  }

  lemma SameFirstRun(a: seq<Run>, b: seq<Run>)
    requires Maximal(a) && Maximal(b) && Expand(a) == Expand(b) && a != [] && b != []
    ensures a[0] == b[0] && Expand(a[1..]) == Expand(b[1..])
  {
    var s := Expand(a);
    var m, n := a[0].last + 1 - a[0].first, b[0].last + 1 - b[0].first;
    FirstRun(a, s, m);
    FirstRun(b, s, n);
    assert s[0] == a[0].first && s[0] == b[0].first;
  }

  /** A list has one decomposition into maximal runs. */
  lemma {:induction false} MaximalIsUnique(a: seq<Run>, b: seq<Run>)
    requires Maximal(a) && Maximal(b) && Expand(a) == Expand(b)
    ensures a == b
    decreases |a|
  {
    if a != [] && b != [] {
      SameFirstRun(a, b);
      MaximalIsUnique(a[1..], b[1..]);
      assert a == [a[0]] + a[1..] && b == [b[0]] + b[1..];
    }
  }

  lemma {:induction false} ExpandAppend(runs: seq<Run>, run: Run)
    ensures Expand(runs + [run]) == Expand(runs) + Range(run.first, run.last)
  {
    if runs == [] {
      assert (runs + [run])[1..] == [];
    } else {
      assert (runs + [run])[1..] == runs[1..] + [run];
      ExpandAppend(runs[1..], run);
    }
  }

  // ---- Formatting ----------------------------------------------------------------------------

  function Show(run: Run): string {
    if run.first != run.last then Decimal(run.first) + "-" + Decimal(run.last) else Decimal(run.first)
  }

  function Shown(runs: seq<Run>): (r: seq<string>)
    ensures |r| == |runs| && forall i :: 0 <= i < |r| ==> r[i] == Show(runs[i])
  {
    seq(|runs|, i requires 0 <= i < |runs| => Show(runs[i]))
  }

  /** The canonical text: the maximal runs, separated by commas. */
  function Format(cpus: seq<nat>): string {
    Join(Shown(RunsOf(cpus)), ',')
  }

  lemma ShowAppend(runs: seq<Run>, run: Run)
    ensures Shown(runs + [run]) == Shown(runs) + [Show(run)]
  {
  }

  lemma {:induction false} MaximalAppend(runs: seq<Run>, run: Run)
    requires Maximal(runs) && run.first <= run.last && (runs == [] || run.first != runs[|runs| - 1].last + 1)
    ensures Maximal(runs + [run])
  {
    if runs == [] {
      assert [run][1..] == [];
    } else {
      assert (runs + [run])[1..] == runs[1..] + [run];
      MaximalAppend(runs[1..], run);
    }
  }

  /** What the loop has seen: closed runs, and one that is still open. */
  ghost predicate Seen(closed: seq<Run>, current: Run, seen: seq<nat>) {
    && Maximal(closed) && current.first <= current.last
    && (closed == [] || current.first != closed[|closed| - 1].last + 1)
    && seen == Expand(closed) + Range(current.first, current.last)
  }

  lemma Lengthen(closed: seq<Run>, current: Run, seen: seq<nat>)
    requires Seen(closed, current, seen)
    ensures Seen(closed, Run(current.first, current.last + 1), seen + [current.last + 1])
  {
    assert Range(current.first, current.last + 1) == Range(current.first, current.last) + [current.last + 1];
  }

  lemma OpenAnother(closed: seq<Run>, current: Run, seen: seq<nat>, cpu: nat)
    requires Seen(closed, current, seen) && cpu != current.last + 1
    ensures Seen(closed + [current], Run(cpu, cpu), seen + [cpu])
  {
    MaximalAppend(closed, current);
    ExpandAppend(closed, current);
    assert Range(cpu, cpu) == [cpu];
  }

  lemma Finish(closed: seq<Run>, current: Run, cpus: seq<nat>)
    requires Seen(closed, current, cpus)
    ensures closed + [current] == RunsOf(cpus)
  {
    MaximalAppend(closed, current);
    ExpandAppend(closed, current);
    MaximalIsUnique(closed + [current], RunsOf(cpus));
  }

  method FormatCpuList(cpus: seq<nat>) returns (text: string)
    ensures text == Format(cpus)
  {
    if cpus == [] {
      return "";
    }
    var ranges: seq<string> := [];
    ghost var closed: seq<Run> := [];
    var start, prev := cpus[0], cpus[0];
    assert Range(start, prev) == [start] == cpus[..1];
    for i := 1 to |cpus|
      invariant ranges == Shown(closed) && Seen(closed, Run(start, prev), cpus[..i])
    {
      var cpu := cpus[i];
      assert cpus[..i + 1] == cpus[..i] + [cpu];
      if cpu == prev + 1 {
        Lengthen(closed, Run(start, prev), cpus[..i]);
        prev := cpu;
      } else {
        OpenAnother(closed, Run(start, prev), cpus[..i], cpu);
        ShowAppend(closed, Run(start, prev));
        ranges := ranges + [Show(Run(start, prev))];
        closed := closed + [Run(start, prev)];
        start, prev := cpu, cpu;
      }
    }
    assert cpus[..|cpus|] == cpus;
    ShowAppend(closed, Run(start, prev));
    ranges := ranges + [Show(Run(start, prev))];
    Finish(closed, Run(start, prev), cpus);
    return Join(ranges, ',');
  }

  // ---- Parsing -------------------------------------------------------------------------------

  /** Where the first hyphen is. */
  function Hyphen(s: string): (r: Option<nat>)
    ensures r.Some? ==> r.value < |s| && s[r.value] == '-' && forall i :: 0 <= i < r.value ==> s[i] != '-'
    ensures r.None? ==> '-' !in s
  {
    if s == [] then None
    else if s[0] == '-' then Some(0)
    else
      match Hyphen(s[1..])
      case None => None
      case Some(k) => Some(k + 1)
  }

  function ParsePart(text: string): Result<seq<nat>> {
    var part := Strip(text);
    if part == "" then Err
    else
      match Hyphen(part)
      case None => if IsDigits(part) then Ok([Value(part)]) else Err
      case Some(k) =>
        var startText, endText := part[..k], part[k + 1..];
        if !IsDigits(startText) || !IsDigits(endText) then Err
        else if Value(startText) > Value(endText) then Err
        else Ok(Range(Value(startText), Value(endText)))
  }

  /** The CPUs of all parts, in order; one bad part spoils the list. */
  function All(parse: string -> Result<seq<nat>>, parts: seq<string>): Result<seq<nat>> {
    if parts == [] then Ok([])
    else
      match (parse(parts[0]), All(parse, parts[1..]))
      case (Ok(a), Ok(b)) => Ok(a + b)
      case _ => Err
  }

  function ParseParts(parts: seq<string>): Result<seq<nat>> {
    All(ParsePart, parts)
  }

  ghost function Parse(text: string): Result<seq<nat>> {
    match ParseParts(Split(text, ','))
    case Ok(cpus) => if Distinct(cpus) then Ok(cpus) else Err
    case Err => Err
  }

  function Ids(cpus: seq<nat>): set<nat> {
    set c | c in cpus
  }

  lemma LastAgain(rest: seq<nat>, last: nat)
    ensures Ids(rest + [last]) == Ids(rest) + {last}
    ensures Distinct(rest + [last]) <==> Distinct(rest) && last !in rest
  {
    var cpus := rest + [last];
    if last in rest {
      var i :| 0 <= i < |rest| && rest[i] == last;
      assert cpus[i] == cpus[|rest|];
    }
    if Distinct(cpus) {
      forall i, j | 0 <= i < j < |rest| ensures rest[i] != rest[j] {
        assert cpus[i] != cpus[j];
      }
    }
  }

  lemma {:induction false} AsManyDistinct(cpus: seq<nat>)
    ensures |Ids(cpus)| <= |cpus|
    ensures Distinct(cpus) <==> |Ids(cpus)| == |cpus|
  {
    if cpus != [] {
      var rest, last := cpus[..|cpus| - 1], cpus[|cpus| - 1];
      AsManyDistinct(rest);
      LastAgain(rest, last);
      assert cpus == rest + [last];
      if last in rest {
        assert Ids(rest) + {last} == Ids(rest);
      } else {
        assert |Ids(rest) + {last}| == |Ids(rest)| + 1;
      }
    }
  }

  lemma {:induction false} OneBadPart(parse: string -> Result<seq<nat>>, parts: seq<string>, i: nat)
    requires i < |parts| && parse(parts[i]).Err?
    ensures All(parse, parts).Err?
  {
    if i > 0 {
      OneBadPart(parse, parts[1..], i - 1);
    }
  }

  lemma {:induction false} OneMorePart(
      parse: string -> Result<seq<nat>>, parts: seq<string>, part: string, cpus: seq<nat>, more: seq<nat>)
    requires All(parse, parts) == Ok(cpus) && parse(part) == Ok(more)
    ensures All(parse, parts + [part]) == Ok(cpus + more)
  {
    if parts == [] {
      assert (parts + [part])[1..] == [] && cpus + more == more + [];
    } else {
      assert (parts + [part])[1..] == parts[1..] + [part];
      var a, b := parse(parts[0]).value, All(parse, parts[1..]).value;
      OneMorePart(parse, parts[1..], part, b, more);
      assert a + (b + more) == a + b + more;
    }
  }

  method ParseAll(parse: string -> Result<seq<nat>>, parts: seq<string>) returns (r: Result<seq<nat>>)
    ensures r == All(parse, parts)
  {
    var cpus: seq<nat> := [];
    for i := 0 to |parts|
      invariant All(parse, parts[..i]) == Ok(cpus)
    {
      var part := parse(parts[i]);
      if part.Err? {
        OneBadPart(parse, parts, i);
        return Err;
      }
      OneMorePart(parse, parts[..i], parts[i], cpus, part.value);
      assert parts[..i + 1] == parts[..i] + [parts[i]];
      cpus := cpus + part.value;
    }
    assert parts[..|parts|] == parts;
    return Ok(cpus);
  }

  method ParseCpuList(text: string) returns (r: Result<seq<nat>>)
    ensures r == Parse(text)
  {
    r := ParseAll(ParsePart, Split(text, ','));
    if r.Ok? {
      AsManyDistinct(r.value);
      if |r.value| != |Ids(r.value)| {
        return Err;
      }
    }
  }

  ghost predicate Blank(s: string) {
    forall i :: 0 <= i < |s| ==> IsSpace(s[i])
  }

  lemma {:induction false} StripLeftOf(before: string, s: string)
    requires Blank(before)
    ensures StripLeft(before + s) == StripLeft(s)
  {
    if before == [] {
      assert before + s == s;
    } else {
      assert (before + s)[1..] == before[1..] + s;
      StripLeftOf(before[1..], s);
    }
  }

  lemma {:induction false} StripRightOf(s: string, after: string)
    requires Blank(after)
    ensures StripRight(s + after) == StripRight(s)
  {
    if after == [] {
      assert s + after == s;
    } else {
      var n := |after| - 1;
      assert (s + after)[..|s + after| - 1] == s + after[..n];
      StripRightOf(s, after[..n]);
    }
  }

  lemma {:induction false} StripLeftKeeps(s: string, after: string)
    requires Blank(after)
    ensures StripRight(StripLeft(s + after)) == StripRight(StripLeft(s))
  {
    if s == [] {
      assert s + after == after + [];
      StripLeftOf(after, []);
    } else if IsSpace(s[0]) {
      assert (s + after)[1..] == s[1..] + after;
      StripLeftKeeps(s[1..], after);
    } else {
      StripRightOf(s, after);
    }
  }

  /** White space around a part does not matter. */
  lemma SpacesAreIgnored(before: string, part: string, after: string)
    requires Blank(before) && Blank(after)
    ensures ParsePart(before + part + after) == ParsePart(part)
  {
    assert before + part + after == before + (part + after);
    StripLeftOf(before, part + after);
    StripLeftKeeps(part, after);
  }

  // ---- Round trips ---------------------------------------------------------------------------

  lemma DigitsAreBare(s: string)
    requires IsDigits(s)
    ensures !IsSpace(s[0]) && !IsSpace(s[|s| - 1]) && '-' !in s && ',' !in s
  {
  }

  lemma HyphenOf(a: string, b: string)
    requires '-' !in a
    ensures Hyphen(a + "-" + b) == Some(|a|)
  {
    var s := a + "-" + b;
    assert s[|a|] == '-';
    forall i | 0 <= i < |a| ensures s[i] != '-' {
      assert s[i] == a[i];
    }
  }

  lemma ParsePartOfShow(run: Run)
    requires run.first <= run.last
    ensures ParsePart(Show(run)) == Ok(Range(run.first, run.last))
  {
    var a, b := Decimal(run.first), Decimal(run.last);
    ValueOfDecimal(run.first);
    ValueOfDecimal(run.last);
    DigitsAreBare(a);
    DigitsAreBare(b);
    if run.first == run.last {
      assert Range(run.first, run.last) == [run.first];
    } else {
      HyphenOf(a, b);
      var s := a + "-" + b;
      assert s[..|a|] == a && s[|a| + 1..] == b && s[0] == a[0] && s[|s| - 1] == b[|b| - 1];
    }
  }

  lemma NoComma(run: Run)
    ensures ',' !in Show(run)
  {
    DigitsAreBare(Decimal(run.first));
    DigitsAreBare(Decimal(run.last));
  }

  lemma {:induction false} ParsePartsOfShown(runs: seq<Run>)
    requires Maximal(runs)
    ensures ParseParts(Shown(runs)) == Ok(Expand(runs))
  {
    if runs != [] {
      ParsePartOfShow(runs[0]);
      ParsePartsOfShown(runs[1..]);
      assert Shown(runs)[1..] == Shown(runs[1..]);
    }
  }

  lemma ReadBack(cpus: seq<nat>)
    requires cpus != []
    ensures ParseParts(Split(Format(cpus), ',')) == Ok(cpus)
  {
    var runs := RunsOf(cpus);
    forall i | 0 <= i < |runs| ensures ',' !in Shown(runs)[i] {
      NoComma(runs[i]);
    }
    SplitOfJoin(Shown(runs), ',');
    ParsePartsOfShown(runs);
  }

  /** A formatted list reads back as itself, in its own order, exactly when it is not empty and repeats no CPU. */
  lemma RoundTrip(cpus: seq<nat>)
    ensures Parse(Format(cpus)) == Ok(cpus) <==> cpus != [] && Distinct(cpus)
    ensures Parse(Format(cpus)).Err? <==> cpus == [] || !Distinct(cpus)
  {
    if cpus == [] {
      assert Split("", ',') == [""];
      OneBadPart(ParsePart, [""], 0);
    } else {
      ReadBack(cpus);
    }
  }

  lemma {:induction false} PartsAreNotEmpty(parts: seq<string>)
    requires parts != [] && ParseParts(parts).Ok?
    ensures ParseParts(parts).value != []
  {
    assert ParsePart(parts[0]).Ok?;
  }

  /** Reformatting any accepted text keeps its meaning. */
  lemma Reformat(text: string)
    requires Parse(text).Ok?
    ensures Parse(text).value != [] && Distinct(Parse(text).value)
    ensures Parse(Format(Parse(text).value)) == Parse(text)
  {
    PartsAreNotEmpty(Split(text, ','));
    RoundTrip(Parse(text).value);
  }
}
