/** `NetflixScraper.ParseDuration`: the running time shown on a title's detail
    view is read as the maximal runs of ASCII digits it holds (the matches of
    `[0-9]+`). Two runs are hours and minutes, one run is minutes, anything
    else raises `NotImplementedException`. */
module Duration {
  import opened Wrappers
  import opened Text

  predicate NoDigits(s: string) {
    forall i :: 0 <= i < |s| ==> !IsDigit(s[i])
  }

  /** Length of the run of digits `s` starts with. */
  function RunLength(s: string): (n: nat)
    ensures n <= |s|
    ensures forall i :: 0 <= i < n ==> IsDigit(s[i])
    ensures n < |s| ==> !IsDigit(s[n])
  {
    if s == [] || !IsDigit(s[0]) then 0 else 1 + RunLength(s[1..])
  }

  /** The successive matches of `[0-9]+` in `s`, left to right. */
  function DigitRuns(s: string): (runs: seq<string>)
    ensures forall k :: 0 <= k < |runs| ==> |runs[k]| > 0 && AllDigits(runs[k])
    decreases |s|
  {
    if s == [] then []
    else if !IsDigit(s[0]) then DigitRuns(s[1..])
    else
      var n := RunLength(s);
      [s[..n]] + DigitRuns(s[n..])
  }

  function DigitValue(ch: char): nat
    requires IsDigit(ch)
  {
    ch as int - '0' as int
  }

  /** `int.Parse` of a string of decimal digits. */
  function DigitsValue(d: string): nat
    requires AllDigits(d)
  {
    if d == [] then 0 else DigitsValue(d[..|d| - 1]) * 10 + DigitValue(d[|d| - 1])
  }

  /** Running time in minutes, or the exception the source throws. */
  function ParseDuration(duration: string): (r: Result<int>)
    ensures r.Ok? ==> r.value >= 0
    ensures r.Threw? ==> r.error == NotImplementedException
  {
    var runs := DigitRuns(duration);
    if |runs| == 2 then Ok(DigitsValue(runs[0]) * 60 + DigitsValue(runs[1]))
    else if |runs| == 1 then Ok(DigitsValue(runs[0]))
    else Threw(NotImplementedException)
  }

  /** Decimal rendering of a natural number, the partner of `DigitsValue`. */
  function Decimal(n: nat): (s: string)
    ensures |s| > 0 && AllDigits(s)
  {
    if n < 10 then [('0' as int + n) as char]
    else Decimal(n / 10) + [('0' as int + n % 10) as char]
  }

  lemma {:induction false} DecimalRoundTrip(n: nat)
    ensures DigitsValue(Decimal(n)) == n
  {
    if n >= 10 {
      var s := Decimal(n);
      assert s[..|s| - 1] == Decimal(n / 10);
      DecimalRoundTrip(n / 10);
    }
  }

  lemma {:induction false} RunLengthOfDigits(d: string)
    requires AllDigits(d)
    ensures RunLength(d) == |d|
  {
    if d != [] {
      RunLengthOfDigits(d[1..]);
    }
  }

  lemma {:induction false} RunLengthAppend(a: string, b: string)
    requires RunLength(a) < |a| || b == [] || !IsDigit(b[0])
    ensures RunLength(a + b) == RunLength(a)
  {
    if a != [] && IsDigit(a[0]) {
      assert (a + b)[1..] == a[1..] + b;
      RunLengthAppend(a[1..], b);
    }
  }

  /** Runs never straddle a boundary next to a non-digit, so the runs of a
      concatenation are the runs of its parts. */
  lemma {:induction false} DigitRunsAppend(a: string, b: string)
    requires a == [] || b == [] || !IsDigit(a[|a| - 1]) || !IsDigit(b[0])
    ensures DigitRuns(a + b) == DigitRuns(a) + DigitRuns(b)
    decreases |a|
  {
    if a == [] {
      assert a + b == b;
    } else if !IsDigit(a[0]) {
      assert (a + b)[0] == a[0];
      assert (a + b)[1..] == a[1..] + b;
      DigitRunsAppend(a[1..], b);
    } else {
      var n := RunLength(a);
      DigitRunsAppend(a[n..], b);
      DigitRunFirst(a, b);
    }
  }

  /** The step of `DigitRunsAppend` for a text starting with a digit. */
  lemma DigitRunFirst(a: string, b: string)
    requires a != [] && IsDigit(a[0])
    requires b == [] || !IsDigit(a[|a| - 1]) || !IsDigit(b[0])
    requires DigitRuns(a[RunLength(a)..] + b) == DigitRuns(a[RunLength(a)..]) + DigitRuns(b)
    ensures DigitRuns(a + b) == DigitRuns(a) + DigitRuns(b)
  {
    var n := RunLength(a);
    RunLengthAppend(a, b);
    SliceAppend(a, b, n);
    assert (a + b)[0] == a[0];
    assert DigitRuns(a + b) == [a[..n]] + DigitRuns(a[n..] + b);
    assert DigitRuns(a) == [a[..n]] + DigitRuns(a[n..]);
    AppendAssociates([a[..n]], DigitRuns(a[n..]), DigitRuns(b));
  }

  lemma {:induction false} DigitRunsOfNoDigits(s: string)
    requires NoDigits(s)
    ensures DigitRuns(s) == []
  {
    if s != [] {
      DigitRunsOfNoDigits(s[1..]);
    }
  }

  lemma DigitRunsOfDigits(d: string)
    requires |d| > 0 && AllDigits(d)
    ensures DigitRuns(d) == [d]
  {
    RunLengthOfDigits(d);
    assert d[..|d|] == d;
    assert d[|d|..] == [];
  }

  /** Text without digits in front of `t` adds no run. */
  lemma SkipNoDigits(pre: string, t: string)
    requires NoDigits(pre)
    ensures DigitRuns(pre + t) == DigitRuns(t)
  {
    DigitRunsOfNoDigits(pre);
    DigitRunsAppend(pre, t);
  }

  /** A number followed by a non-digit (or by nothing) is one whole run. */
  lemma NumberThen(d: string, t: string)
    requires |d| > 0 && AllDigits(d)
    requires t == [] || !IsDigit(t[0])
    ensures DigitRuns(d + t) == [d] + DigitRuns(t)
  {
    DigitRunsOfDigits(d);
    DigitRunsAppend(d, t);
  }

  lemma TwoNumbers(pre: string, dh: string, mid: string, dm: string, post: string)
    requires NoDigits(pre) && NoDigits(mid) && |mid| > 0 && NoDigits(post)
    requires |dh| > 0 && AllDigits(dh) && |dm| > 0 && AllDigits(dm)
    ensures DigitRuns(pre + (dh + (mid + (dm + post)))) == [dh, dm]
  {
    var t1 := dm + post;
    SkipNoDigits(post, []);
    assert post + [] == post;
    NumberThen(dm, post);
    var t2 := mid + t1;
    SkipNoDigits(mid, t1);
    var t3 := dh + t2;
    NumberThen(dh, t2);
    SkipNoDigits(pre, t3);
  }

  lemma ThreeNumbers(da: string, sep1: string, db: string, sep2: string, dc: string)
    requires NoDigits(sep1) && |sep1| > 0 && NoDigits(sep2) && |sep2| > 0
    requires |da| > 0 && AllDigits(da) && |db| > 0 && AllDigits(db) && |dc| > 0 && AllDigits(dc)
    ensures |DigitRuns(da + (sep1 + (db + (sep2 + dc))))| == 3
  {
    NumberThen(dc, []);
    assert dc + [] == dc;
    var t1 := sep2 + dc;
    SkipNoDigits(sep2, dc);
    var t2 := db + t1;
    NumberThen(db, t1);
    var t3 := sep1 + t2;
    SkipNoDigits(sep1, t2);
    NumberThen(da, t3);
  }

  lemma Regroup(a: string, b: string, c: string, d: string, e: string)
    ensures a + b + c + d + e == a + (b + (c + (d + e)))
  {
  }

  /** "1h 54m", "1 h 54 min": two numbers separated by text are hours and
      minutes. */
  lemma HoursAndMinutes(pre: string, h: nat, mid: string, m: nat, post: string)
    requires NoDigits(pre) && NoDigits(mid) && |mid| > 0 && NoDigits(post)
    ensures ParseDuration(pre + Decimal(h) + mid + Decimal(m) + post) == Ok(h * 60 + m)
  {
    var dh, dm := Decimal(h), Decimal(m);
    TwoNumbers(pre, dh, mid, dm, post);
    Regroup(pre, dh, mid, dm, post);
    DecimalRoundTrip(h);
    DecimalRoundTrip(m);
  }

  /** "90 min": a single number is already minutes. */
  lemma MinutesOnly(pre: string, m: nat, post: string)
    requires NoDigits(pre) && NoDigits(post)
    ensures ParseDuration(pre + Decimal(m) + post) == Ok(m)
  {
    var dm := Decimal(m);
    SkipNoDigits(post, []);
    assert post + [] == post;
    NumberThen(dm, post);
    SkipNoDigits(pre, dm + post);
    DecimalRoundTrip(m);
    assert pre + dm + post == pre + (dm + post);
  }

  /** Text without any digit is not a duration: the source throws. */
  lemma NoNumberThrows(s: string)
    requires NoDigits(s)
    ensures ParseDuration(s) == Threw(NotImplementedException)
  {
    DigitRunsOfNoDigits(s);
  }

  /** Three numbers are not a duration either. */
  lemma ThreeNumbersThrow(a: nat, sep1: string, b: nat, sep2: string, c: nat)
    requires NoDigits(sep1) && |sep1| > 0 && NoDigits(sep2) && |sep2| > 0
    ensures ParseDuration(Decimal(a) + sep1 + Decimal(b) + sep2 + Decimal(c)) == Threw(NotImplementedException)
  {
    var da, db, dc := Decimal(a), Decimal(b), Decimal(c);
    var s := da + (sep1 + (db + (sep2 + dc)));
    ThreeNumbers(da, sep1, db, sep2, dc);
    Regroup(da, sep1, db, sep2, dc);
  }
}
