/** The run planner of `main` (cmx-anonymiser.py:300-330): the "now" shortcut, the
    parsing of the comma-separated `H:MM` list, and the nested day/mark loops that
    hand one delay per future instant to the scheduler. Time is integer seconds
    in naive local time, with days of 86400 seconds. */
module Schedule {

  import opened Base

  // ---------------------------------------------------------------------------
  // `w in s` for strings

  /** Whether `w` occurs in `s` as a contiguous substring. */
  function HasInfix(s: string, w: string): bool
    decreases |s|
  {
    if |s| < |w| then false else s[..|w|] == w || (s != [] && HasInfix(s[1..], w))
  }

  /** `w` occurs in `s` starting at index i. */
  predicate OccursAt(s: string, w: string, i: int)
  {
    0 <= i <= |s| - |w| && s[i..i + |w|] == w
  }

  lemma {:induction false} HasInfixIff(s: string, w: string)
    ensures HasInfix(s, w) <==> exists i :: OccursAt(s, w, i)
    decreases |s|
  {
    if |s| >= |w| {
      if s[..|w|] == w {
        assert OccursAt(s, w, 0);
      } else {
        assert s != [];
        HasInfixIff(s[1..], w);
        if HasInfix(s[1..], w) {
          var i :| OccursAt(s[1..], w, i);
          assert s[1..][i..i + |w|] == s[i + 1..i + 1 + |w|];
          assert OccursAt(s, w, i + 1);
        }
        if exists i :: OccursAt(s, w, i) {
          var i :| OccursAt(s, w, i);
          assert i != 0;
          assert s[1..][i - 1..i - 1 + |w|] == s[i..i + |w|];
          assert OccursAt(s[1..], w, i - 1);
        }
      }
    }
  }

  // ---------------------------------------------------------------------------
  // `str.split(sep)` for a one-character separator

  function Split(s: string, sep: char): (parts: seq<string>)
    ensures |parts| >= 1
    ensures forall i :: 0 <= i < |parts| ==> sep !in parts[i]
  {
    if s == [] then [""]
    else
      var rest := Split(s[1..], sep);
      if s[0] == sep then [""] + rest else [[s[0]] + rest[0]] + rest[1..]
  }

  /** `sep.join(parts)`. */
  function Join(parts: seq<string>, sep: char): string
    requires |parts| >= 1
  {
    if |parts| == 1 then parts[0] else parts[0] + [sep] + Join(parts[1..], sep)
  }

  lemma {:induction false} JoinSplit(s: string, sep: char)
    ensures Join(Split(s, sep), sep) == s
  {
    if s != [] {
      var rest := Split(s[1..], sep);
      JoinSplit(s[1..], sep);
      if s[0] == sep {
        assert ([""] + rest)[1..] == rest;
      } else {
        var parts := [[s[0]] + rest[0]] + rest[1..];
        if |rest| == 1 {
          assert Join(parts, sep) == [s[0]] + rest[0];
        } else {
          assert parts[1..] == rest[1..];
          assert Join(rest, sep) == rest[0] + [sep] + Join(rest[1..], sep);
        }
        assert s == [s[0]] + s[1..];
      }
    }
  }

  /** A piece without the separator is one part, followed by whatever comes after. */
  lemma {:induction false} SplitPrefix(p: string, t: string, sep: char)
    requires sep !in p
    ensures Split(p + t, sep) == [p + Split(t, sep)[0]] + Split(t, sep)[1..]
  {
    if p != [] {
      var r := Split(t, sep);
      assert (p + t)[1..] == p[1..] + t;
      assert (p + t)[0] == p[0];
      SplitPrefix(p[1..], t, sep);
      var rest := Split(p[1..] + t, sep);
      assert rest == [p[1..] + r[0]] + r[1..];
      assert Split(p + t, sep) == [[p[0]] + rest[0]] + rest[1..];
      assert rest[1..] == r[1..];
      assert [p[0]] + rest[0] == [p[0]] + p[1..] + r[0];
      assert p == [p[0]] + p[1..];
    } else {
      assert p + t == t;
      var r := Split(t, sep);
      assert r == [r[0]] + r[1..];
      assert p + r[0] == r[0];
    }
  }

  lemma {:induction false} SplitJoin(parts: seq<string>, sep: char)
    requires |parts| >= 1
    requires forall i :: 0 <= i < |parts| ==> sep !in parts[i]
    ensures Split(Join(parts, sep), sep) == parts
  {
    if |parts| == 1 {
      SplitPrefix(parts[0], "", sep);
      assert parts[0] + "" == parts[0];
    } else {
      var tail := Join(parts[1..], sep);
      SplitJoin(parts[1..], sep);
      SplitPrefix(parts[0], [sep] + tail, sep);
      assert parts[0] + [sep] + tail == parts[0] + ([sep] + tail);
      assert ([sep] + tail)[1..] == tail;
      assert ([sep] + tail)[0] == sep;
      assert Split([sep] + tail, sep) == [""] + parts[1..];
      assert parts[0] + "" == parts[0];
      assert parts == [parts[0]] + parts[1..];
    }
  }

  // ---------------------------------------------------------------------------
  // `int(text)` for a string: surrounding whitespace, an optional sign, and decimal
  // digits with single underscores between them

  predicate IsSpace(c: char)
  {
    c == ' ' || c == '\t' || c == '\n' || c == '\r' || c as int == 0x0B || c as int == 0x0C
  }

  predicate IsDigit(c: char)
  {
    '0' <= c <= '9'
  }

  function TrimStart(s: string): string
  {
    if s != [] && IsSpace(s[0]) then TrimStart(s[1..]) else s
  }

  function TrimEnd(s: string): string
  {
    if s != [] && IsSpace(s[|s| - 1]) then TrimEnd(s[..|s| - 1]) else s
  }

  predicate ValidDigits(t: string)
  {
    && t != []
    && IsDigit(t[0]) && IsDigit(t[|t| - 1])
    && (forall i :: 0 <= i < |t| ==> IsDigit(t[i]) || t[i] == '_')
    && (forall i :: 0 <= i < |t| - 1 ==> t[i] == '_' ==> t[i + 1] != '_')
  }

  /** The number the digits of `t` spell, underscores ignored. */
  function DigitsValue(t: string): nat
  {
    if t == [] then 0
    else if IsDigit(t[|t| - 1]) then DigitsValue(t[..|t| - 1]) * 10 + (t[|t| - 1] as int - '0' as int)
    else DigitsValue(t[..|t| - 1])
  }

  function ParseInt(text: string): Option<int>
  {
    var t := TrimEnd(TrimStart(text));
    if t != [] && (t[0] == '+' || t[0] == '-') then
      var magnitude: int := DigitsValue(t[1..]);
      if ValidDigits(t[1..]) then Some(if t[0] == '-' then -magnitude else magnitude)
      else None
    else if ValidDigits(t) then Some(DigitsValue(t))
    else None
  }

  /** The decimal numeral of a natural number. */
  function ShowNat(n: nat): (s: string)
    ensures s != [] && forall i :: 0 <= i < |s| ==> IsDigit(s[i])
  {
    if n < 10 then [('0' as int + n) as char] else ShowNat(n / 10) + [('0' as int + n % 10) as char]
  }

  function Show(n: int): string
  {
    if n < 0 then "-" + ShowNat(-n) else ShowNat(n)
  }

  lemma {:induction false} DigitsValueShowNat(n: nat)
    ensures DigitsValue(ShowNat(n)) == n
  {
    if n >= 10 {
      var s := ShowNat(n);
      assert s[..|s| - 1] == ShowNat(n / 10);
      DigitsValueShowNat(n / 10);
    }
  }

  /** int() reads back every numeral str() writes. */
  lemma ParseIntShow(n: int)
    ensures ParseInt(Show(n)) == Some(n)
  {
    var digits := ShowNat(if n < 0 then -n else n);
    DigitsValueShowNat(if n < 0 then -n else n);
    var s := Show(n);
    assert TrimStart(s) == s;
    assert TrimEnd(s) == s;
    if n < 0 {
      assert s[1..] == digits;
    }
  }

  lemma {:induction false} TrimStartSpaces(pre: string, t: string)
    requires forall i :: 0 <= i < |pre| ==> IsSpace(pre[i])
    requires t == [] || !IsSpace(t[0])
    ensures TrimStart(pre + t) == t
  {
    if pre == [] {
      assert pre + t == t;
    } else {
      assert (pre + t)[1..] == pre[1..] + t;
      TrimStartSpaces(pre[1..], t);
    }
  }

  lemma {:induction false} TrimEndSpaces(t: string, post: string)
    requires forall i :: 0 <= i < |post| ==> IsSpace(post[i])
    requires t == [] || !IsSpace(t[|t| - 1])
    ensures TrimEnd(t + post) == t
  {
    if post == [] {
      assert t + post == t;
    } else {
      var front := post[..|post| - 1];
      assert (t + post)[..|t + post| - 1] == t + front;
      TrimEndSpaces(t, front);
    }
  }

  /** `int()` ignores surrounding whitespace: `int(" 9 ")` is `int("9")`. */
  lemma ParseIntIgnoresSpaces(pre: string, t: string, post: string)
    requires forall i :: 0 <= i < |pre| ==> IsSpace(pre[i])
    requires forall i :: 0 <= i < |post| ==> IsSpace(post[i])
    requires t == [] || (!IsSpace(t[0]) && !IsSpace(t[|t| - 1]))
    ensures ParseInt(pre + t + post) == ParseInt(t)
  {
    if t == [] {
      var blank := pre + t + post;
      assert forall i :: 0 <= i < |blank| ==> IsSpace(blank[i]);
      TrimStartSpaces(blank, []);
      assert blank + [] == blank;
    } else {
      assert pre + t + post == pre + (t + post);
      TrimStartSpaces(pre, t + post);
      TrimEndSpaces(t, post);
      TrimStartSpaces([], t);
      TrimEndSpaces(t, []);
      assert [] + t == t && t + [] == t;
    }
  }

  /** An empty or blank string is not a number. */
  lemma ParseIntBlank(text: string)
    requires TrimEnd(TrimStart(text)) == []
    ensures ParseInt(text) == None
  {
  }

  /** Signs, underscores and padding as `int()` treats them. */
  lemma ParseIntExamples()
    ensures ParseInt(" -1_0 ") == Some(-10)
    ensures ParseInt("09") == Some(9)
    ensures ParseInt("+7") == Some(7)
    ensures ParseInt("1__0") == None
    ensures ParseInt("_1") == None
    ensures ParseInt("1_") == None
    ensures ParseInt("+") == None
    ensures ParseInt("") == None
  {
    ParseIntSpaced();
    ParseIntAccepts();
    ParseIntRejects();
  }

  /** Spaces, a sign and an underscore together. */
  lemma ParseIntSpaced()
    ensures ParseInt(" -1_0 ") == Some(-10)
  {
    var t := "-1_0";
    ParseIntIgnoresSpaces(" ", t, " ");
    assert " " + t + " " == " -1_0 ";
    assert t[1..] == "1_0";
    assert "1_0"[..2] == "1_" && "1_"[..1] == "1" && "1"[..0] == [];
    assert DigitsValue("1_0") == 10;
    assert TrimStart(t) == t && TrimEnd(t) == t;
  }

  /** A leading zero and a plus sign are accepted. */
  lemma ParseIntAccepts()
    ensures ParseInt("09") == Some(9)
    ensures ParseInt("+7") == Some(7)
  {
    assert "09"[..1] == "0" && "0"[..0] == [];
    assert TrimStart("09") == "09" && TrimEnd("09") == "09";
    assert TrimStart("+7") == "+7" && TrimEnd("+7") == "+7";
    assert "+7"[1..] == "7" && "7"[..0] == [];
  }

  /** Misplaced underscores, a bare sign and the empty string are rejected. */
  lemma ParseIntRejects()
    ensures ParseInt("1__0") == None
    ensures ParseInt("_1") == None
    ensures ParseInt("1_") == None
    ensures ParseInt("+") == None
    ensures ParseInt("") == None
  {
    assert TrimStart("1__0") == "1__0" && TrimEnd("1__0") == "1__0";
    assert "1__0"[1] == '_' && "1__0"[2] == '_';
    assert TrimStart("_1") == "_1" && TrimEnd("_1") == "_1";
    assert TrimStart("1_") == "1_" && TrimEnd("1_") == "1_";
    assert TrimStart("+") == "+" && TrimEnd("+") == "+";
    assert "+"[1..] == [];
  }

  // ---------------------------------------------------------------------------
  // The daily marks

  /** A time of day as `datetime(year, month, day, hr, minute, 0)` accepts it. */
  datatype Mark = Mark(hour: int, minute: int)

  predicate ValidMark(m: Mark)
  {
    0 <= m.hour < 24 && 0 <= m.minute < 60
  }

  /** `datetime()` converts each of its fields to a C int before it checks any range:
      a value outside the signed 32-bit range raises OverflowError. */
  predicate FitsCInt(x: int)
  {
    -0x8000_0000 <= x < 0x8000_0000
  }

  /** One entry of the schedule list: `(sched_hour, sched_min)` unpacking needs
      exactly two `:`-separated parts and `int()` must accept both (else ValueError);
      `datetime()` then raises OverflowError for an hour or minute that does not fit
      a C int, and ValueError for one out of range. */
  function ParseMark(entry: string): (r: Result<Mark, PyError>)
    ensures var parts := Split(entry, ':');
            r.Ok? <==> |parts| == 2 && ParseInt(parts[0]).Some? && ParseInt(parts[1]).Some?
                       && ValidMark(Mark(ParseInt(parts[0]).value, ParseInt(parts[1]).value))
    ensures r.Ok? ==> ValidMark(r.value)
    ensures r.Ok? ==> |Split(entry, ':')| == 2
                      && ParseInt(Split(entry, ':')[0]) == Some(r.value.hour)
                      && ParseInt(Split(entry, ':')[1]) == Some(r.value.minute)
    ensures var parts := Split(entry, ':');
            r == Err(OverflowError) <==>
              |parts| == 2 && ParseInt(parts[0]).Some? && ParseInt(parts[1]).Some?
              && !(FitsCInt(ParseInt(parts[0]).value) && FitsCInt(ParseInt(parts[1]).value))
    ensures r.Err? ==> r.error == ValueError || r.error == OverflowError
  {
    var parts := Split(entry, ':');
    if |parts| != 2 then Err(ValueError)
    else match (ParseInt(parts[0]), ParseInt(parts[1]))
      case (Some(h), Some(m)) =>
        if !FitsCInt(h) || !FitsCInt(m) then Err(OverflowError)
        else if ValidMark(Mark(h, m)) then Ok(Mark(h, m))
        else Err(ValueError)
      case _ => Err(ValueError)
  }

  /** An entry written as two decimal numerals around a colon: accepted iff the
      pair is a valid time of day; otherwise OverflowError when a numeral does not
      fit a C int (so `"25:9999999999"` overflows although 25 is out of range too),
      and ValueError when both fit. */
  lemma ParseMarkShown(h: int, m: int)
    ensures ParseMark(Show(h) + ":" + Show(m)) ==
              if !FitsCInt(h) || !FitsCInt(m) then Err(OverflowError)
              else if ValidMark(Mark(h, m)) then Ok(Mark(h, m))
              else Err(ValueError)
  {
    ShowHasNoColon(h);
    ShowHasNoColon(m);
    assert Show(h) + ":" + Show(m) == Join([Show(h), Show(m)], ':');
    SplitJoin([Show(h), Show(m)], ':');
    ParseIntShow(h);
    ParseIntShow(m);
  }

  lemma ShowHasNoColon(n: int)
    ensures ':' !in Show(n)
  {
    var digits := ShowNat(if n < 0 then -n else n);
    assert forall i :: 0 <= i < |digits| ==> digits[i] != ':';
  }

  /** "H:MM", the form the configuration uses. */
  function FormatMark(m: Mark): string
    requires ValidMark(m)
  {
    ShowNat(m.hour) + ":" + [('0' as int + m.minute / 10) as char, ('0' as int + m.minute % 10) as char]
  }

  lemma ParseFormattedMark(m: Mark)
    requires ValidMark(m)
    ensures ParseMark(FormatMark(m)) == Ok(m)
  {
    var h := ShowNat(m.hour);
    var mm := [('0' as int + m.minute / 10) as char, ('0' as int + m.minute % 10) as char];
    assert FormatMark(m) == Join([h, mm], ':');
    SplitJoin([h, mm], ':');
    ParseIntShow(m.hour);
    assert TrimStart(mm) == mm && TrimEnd(mm) == mm;
    assert mm[..1] == [mm[0]];
    assert mm[..1][..0] == [];
    assert DigitsValue(mm[..1]) == m.minute / 10;
    assert DigitsValue(mm) == m.minute / 10 * 10 + m.minute % 10 == m.minute;
  }

  /** The whole list, parsed in order; the first bad entry decides the error. */
  function ParseMarks(entries: seq<string>): Result<seq<Mark>, PyError>
  {
    if entries == [] then Ok([])
    else match ParseMarks(entries[..|entries| - 1])
      case Err(e) => Err(e)
      case Ok(marks) =>
        match ParseMark(entries[|entries| - 1])
        case Err(e) => Err(e)
        case Ok(m) => Ok(marks + [m])
  }

  lemma {:induction false} ParseMarksCases(entries: seq<string>)
    ensures ParseMarks(entries).Ok? <==> forall i :: 0 <= i < |entries| ==> ParseMark(entries[i]).Ok?
    ensures ParseMarks(entries).Ok? ==>
              |ParseMarks(entries).value| == |entries|
              && forall i :: 0 <= i < |entries| ==> ParseMark(entries[i]) == Ok(ParseMarks(entries).value[i])
  {
    if entries != [] {
      var front := entries[..|entries| - 1];
      assert forall i :: 0 <= i < |front| ==> front[i] == entries[i];
      ParseMarksCases(front);
    }
  }

  lemma {:induction false} ParseMarksErrorPersists(entries: seq<string>, i: nat)
    requires i <= |entries|
    requires ParseMarks(entries[..i]).Err?
    ensures ParseMarks(entries) == ParseMarks(entries[..i])
    decreases |entries| - i
  {
    if i < |entries| {
      assert entries[..|entries| - 1][..i] == entries[..i];
      ParseMarksErrorPersists(entries[..|entries| - 1], i);
    } else {
      assert entries[..i] == entries;
    }
  }

  // ---------------------------------------------------------------------------
  // Candidate instants and delays

  const DaySeconds := 86400

  /** Seconds since midnight. */
  function TimeOfDay(m: Mark): int
  {
    m.hour * 3600 + m.minute * 60
  }

  /** Midnight of the day containing instant t. */
  function Midnight(t: int): int
  {
    t - t % DaySeconds
  }

  /** `datetime(future.year, future.month, future.day, hr, minute, 0)` for
      `future = now + timedelta(days=day)`. */
  function Candidate(now: int, day: nat, m: Mark): int
  {
    Midnight(now + day * DaySeconds) + TimeOfDay(m)
  }

  /** `(future_date - today).total_seconds()`. */
  function Delay(now: int, day: nat, m: Mark): int
  {
    Candidate(now, day, m) - now
  }

  /** The delay of day `day` at mark m: whole days plus the mark's time of day, minus
      the time already elapsed today. */
  lemma DelayFormula(now: int, day: nat, m: Mark)
    ensures Delay(now, day, m) == day * DaySeconds + TimeOfDay(m) - now % DaySeconds
  {
  }

  /** The delays of one day, in mark order, keeping only those in the future. */
  function DayDelays(now: int, day: nat, marks: seq<Mark>): seq<int>
  {
    if marks == [] then []
    else
      var secs := Delay(now, day, marks[|marks| - 1]);
      DayDelays(now, day, marks[..|marks| - 1]) + (if secs > 0 then [secs] else [])
  }

  /** The delays of days 0 .. days-1, day by day. */
  function Delays(now: int, days: int, marks: seq<Mark>): seq<int>
    decreases days
  {
    if days <= 0 then [] else Delays(now, days - 1, marks) + DayDelays(now, days - 1, marks)
  }

  lemma {:induction false} DayDelaysMembers(now: int, day: nat, marks: seq<Mark>)
    ensures |DayDelays(now, day, marks)| <= |marks|
    ensures forall x :: x in DayDelays(now, day, marks) <==>
              x > 0 && exists k :: 0 <= k < |marks| && Delay(now, day, marks[k]) == x
  {
    if marks != [] {
      var front := marks[..|marks| - 1];
      assert forall k :: 0 <= k < |front| ==> front[k] == marks[k];
      DayDelaysMembers(now, day, front);
    }
  }

  /** Every delay handed to `s.enter` is positive; there are at most days x |marks|
      of them; and a value is among them iff it is the positive delay of some day
      offset below `days` at some mark. */
  lemma DelaysMembers(now: int, days: int, marks: seq<Mark>)
    ensures forall x :: x in Delays(now, days, marks) ==> x > 0
    ensures |Delays(now, days, marks)| <= (if days < 0 then 0 else days) * |marks|
    ensures forall x :: x in Delays(now, days, marks) <==>
              x > 0 && exists d: nat, k :: d < days && 0 <= k < |marks| && Delay(now, d, marks[k]) == x
  {
    DelaysCount(now, days, marks);
    DelaysFromCandidates(now, days, marks);
  }

  /** At most one delay per day and mark. */
  lemma {:induction false} DelaysCount(now: int, days: int, marks: seq<Mark>)
    ensures |Delays(now, days, marks)| <= (if days < 0 then 0 else days) * |marks|
    decreases days
  {
    if days > 0 {
      DelaysCount(now, days - 1, marks);
      DayDelaysMembers(now, days - 1, marks);
      assert (days - 1) * |marks| + |marks| == days * |marks|;
    }
  }

  /** The delays are exactly the positive delays of the candidates. */
  lemma {:induction false} DelaysFromCandidates(now: int, days: int, marks: seq<Mark>)
    ensures forall x :: x in Delays(now, days, marks) <==>
              x > 0 && exists d: nat, k :: d < days && 0 <= k < |marks| && Delay(now, d, marks[k]) == x
    decreases days
  {
    if days > 0 {
      DelaysFromCandidates(now, days - 1, marks);
      DayDelaysMembers(now, days - 1, marks);
      assert Delays(now, days, marks) == Delays(now, days - 1, marks) + DayDelays(now, days - 1, marks);
    }
  }

  /** The delays of day `day` lie within that day. */
  lemma DayDelaysWindow(now: int, day: nat, marks: seq<Mark>)
    requires forall k :: 0 <= k < |marks| ==> ValidMark(marks[k])
    ensures forall x :: x in DayDelays(now, day, marks) ==>
              day * DaySeconds - now % DaySeconds <= x < (day + 1) * DaySeconds - now % DaySeconds
  {
    DayDelaysMembers(now, day, marks);
    forall k | 0 <= k < |marks| {
      DelayFormula(now, day, marks[k]);
    }
  }

  predicate StrictlyIncreasing(s: seq<int>)
  {
    forall i, j :: 0 <= i < j < |s| ==> s[i] < s[j]
  }

  predicate Ascending(marks: seq<Mark>)
  {
    forall i, j :: 0 <= i < j < |marks| ==> TimeOfDay(marks[i]) < TimeOfDay(marks[j])
  }

  lemma {:induction false} DayDelaysIncreasing(now: int, day: nat, marks: seq<Mark>)
    requires Ascending(marks)
    ensures StrictlyIncreasing(DayDelays(now, day, marks))
  {
    if marks != [] {
      var front := marks[..|marks| - 1];
      assert Ascending(front);
      DayDelaysIncreasing(now, day, front);
      DayDelaysMembers(now, day, front);
      var last := marks[|marks| - 1];
      DelayFormula(now, day, last);
      var before := DayDelays(now, day, front);
      forall x | x in before ensures x < Delay(now, day, last) {
        var k :| 0 <= k < |front| && Delay(now, day, front[k]) == x;
        DelayFormula(now, day, front[k]);
      }
      var secs := Delay(now, day, last);
      var all := before + (if secs > 0 then [secs] else []);
      forall i, j | 0 <= i < j < |all| ensures all[i] < all[j] {
        if j >= |before| {
          assert all[i] in before;
        }
      }
    }
  }

  lemma {:induction false} DelaysBelow(now: int, days: int, marks: seq<Mark>)
    requires forall k :: 0 <= k < |marks| ==> ValidMark(marks[k])
    ensures forall x :: x in Delays(now, days, marks) ==> x < days * DaySeconds - now % DaySeconds
    decreases days
  {
    if days > 0 {
      DelaysBelow(now, days - 1, marks);
      DayDelaysWindow(now, days - 1, marks);
    }
  }

  /** When the marks are listed in increasing time of day, the delays come out
      strictly increasing, so the timers fire in the order they were registered. */
  lemma {:induction false} AscendingMarksGiveIncreasingDelays(now: int, days: int, marks: seq<Mark>)
    requires forall k :: 0 <= k < |marks| ==> ValidMark(marks[k])
    requires Ascending(marks)
    ensures StrictlyIncreasing(Delays(now, days, marks))
    decreases days
  {
    if days > 0 {
      var before, today := Delays(now, days - 1, marks), DayDelays(now, days - 1, marks);
      AscendingMarksGiveIncreasingDelays(now, days - 1, marks);
      DayDelaysIncreasing(now, days - 1, marks);
      DelaysBelow(now, days - 1, marks);
      DayDelaysWindow(now, days - 1, marks);
      var all := before + today;
      forall i, j | 0 <= i < j < |all| ensures all[i] < all[j] {
        if j < |before| {
        } else if i >= |before| {
          assert all[i] == today[i - |before|] && all[j] == today[j - |before|];
        } else {
          assert all[i] in before && all[j] in today;
        }
      }
    }
  }

  // ---------------------------------------------------------------------------
  // main

  /** What main does once the configuration is loaded: run getData once at once,
      register one timer per delay (priority 1), or die with the exception that
      escaped the planning loop before the scheduler ran. */
  datatype Plan = RunNow | Timers(delays: seq<int>) | Failed(error: PyError)

  function PlanOf(schedule: string, days: int, now: int): Plan
  {
    if HasInfix(schedule, "now") then RunNow
    else if days <= 0 then Timers([])
    else match ParseMarks(Split(schedule, ','))
      case Err(e) => Failed(e)
      case Ok(marks) => Timers(Delays(now, days, marks))
  }

  /** One pass of main's inner loop: parse every entry again (each `int()` and
      `datetime()` call is repeated on every day) and keep the positive delays of
      day `day`, in entry order. The first malformed entry raises. */
  method DayTimers(schedTime: seq<string>, day: nat, now: int) returns (r: Result<seq<int>, PyError>)
    ensures ParseMarks(schedTime).Err? ==> r == Err(ParseMarks(schedTime).error)
    ensures ParseMarks(schedTime).Ok? ==> r == Ok(DayDelays(now, day, ParseMarks(schedTime).value))
  {
    var delays: seq<int> := [];
    ghost var marks: seq<Mark> := [];
    var k := 0;
    assert schedTime[..0] == [];
    while k < |schedTime|
      invariant 0 <= k <= |schedTime|
      invariant ParseMarks(schedTime[..k]) == Ok(marks)
      invariant delays == DayDelays(now, day, marks)
    {
      var mark := ParseMark(schedTime[k]);
      assert schedTime[..k + 1][..k] == schedTime[..k];
      assert schedTime[..k + 1][k] == schedTime[k];
      if mark.Err? {
        ParseMarksErrorPersists(schedTime, k + 1);
        return Err(mark.error);
      }
      marks := marks + [mark.value];
      var secs := Delay(now, day, mark.value);
      if secs > 0 {
        delays := delays + [secs];
      }
      k := k + 1;
    }
    assert schedTime[..k] == schedTime;
    r := Ok(delays);
  }

  /** The planning part of main, with the current time read once. */
  method Start(schedule: string, days: int, now: int) returns (p: Plan)
    ensures p == PlanOf(schedule, days, now)
  {
    if HasInfix(schedule, "now") {
      return RunNow;
    }
    var schedTime := Split(schedule, ',');
    var delays: seq<int> := [];
    var day := 0;
    while day < days
      invariant 0 <= day && (day == 0 || day <= days)
      invariant day == 0 ==> delays == []
      invariant day > 0 ==> ParseMarks(schedTime).Ok?
                            && delays == Delays(now, day, ParseMarks(schedTime).value)
    {
      var today := DayTimers(schedTime, day, now);
      if today.Err? {
        return Failed(today.error);
      }
      delays := delays + today.value;
      day := day + 1;
    }
    p := Timers(delays);
  }

  /** A schedule string containing "now" anywhere (e.g. "now", or "9:00,now") runs
      one collection at once and registers no timer; any other string never does. */
  lemma NowShortcut(schedule: string, days: int, now: int)
    ensures PlanOf(schedule, days, now) == RunNow <==>
              exists i :: OccursAt(schedule, "now", i)
  {
    HasInfixIff(schedule, "now");
  }

  /** The timers main registers: all positive, at most days x (number of entries),
      and exactly the positive delays of the candidates. With no day to plan, the
      entries are never parsed, so even a malformed list schedules nothing. */
  lemma PlannedTimers(schedule: string, days: int, now: int)
    requires PlanOf(schedule, days, now).Timers?
    ensures var ds := PlanOf(schedule, days, now).delays;
            forall x :: x in ds ==> x > 0
    ensures var ds := PlanOf(schedule, days, now).delays;
            |ds| <= (if days < 0 then 0 else days) * |Split(schedule, ',')|
    ensures var ds := PlanOf(schedule, days, now).delays;
            days > 0 ==> forall x :: x in ds <==>
              x > 0 && exists d: nat, k, m :: d < days && 0 <= k < |Split(schedule, ',')|
                         && ParseMark(Split(schedule, ',')[k]) == Ok(m) && Delay(now, d, m) == x
    ensures days <= 0 ==> PlanOf(schedule, days, now).delays == []
  {
    if days > 0 {
      var entries := Split(schedule, ',');
      var marks := ParseMarks(entries).value;
      ParseMarksCases(entries);
      DelaysMembers(now, days, marks);
    }
  }

  /** Planning fails iff there is a day to plan and some entry is malformed. */
  lemma PlanFailure(schedule: string, days: int, now: int)
    ensures PlanOf(schedule, days, now).Failed? <==>
              !HasInfix(schedule, "now") && days > 0
              && exists k :: 0 <= k < |Split(schedule, ',')| && ParseMark(Split(schedule, ',')[k]).Err?
    ensures PlanOf(schedule, days, now).Failed? ==>
              PlanOf(schedule, days, now).error == ValueError || PlanOf(schedule, days, now).error == OverflowError
  {
    var entries := Split(schedule, ',');
    ParseMarksCases(entries);
    if ParseMarks(entries).Err? {
      ParseMarksFirstError(entries);
      assert !forall i :: 0 <= i < |entries| ==> ParseMark(entries[i]).Ok?;
      var k :| 0 <= k < |entries| && !ParseMark(entries[k]).Ok?;
      assert ParseMark(entries[k]).Err?;
    } else {
      assert forall i :: 0 <= i < |entries| ==> ParseMark(entries[i]).Ok?;
    }
  }

  /** A failing list raises the exception of its first malformed entry, so a
      ValueError or an OverflowError. */
  lemma {:induction false} ParseMarksFirstError(entries: seq<string>)
    requires ParseMarks(entries).Err?
    ensures exists k :: 0 <= k < |entries| && ParseMark(entries[k]) == Err(ParseMarks(entries).error)
                        && forall j :: 0 <= j < k ==> ParseMark(entries[j]).Ok?
    ensures ParseMarks(entries).error == ValueError || ParseMarks(entries).error == OverflowError
  {
    var front := entries[..|entries| - 1];
    assert forall j :: 0 <= j < |front| ==> front[j] == entries[j];
    if ParseMarks(front).Err? {
      ParseMarksFirstError(front);
    } else {
      ParseMarksCases(front);
      assert ParseMark(entries[|entries| - 1]) == Err(ParseMarks(entries).error);
    }
  }

  /** One mark at 9:00, planned at 8:00 on some day: one timer, an hour later.
      Planned at 10:00: nothing that day, and over two days only the next day's
      9:00, 23 hours later. */
  lemma NineOClockExamples(day: nat)
    ensures Delays(day * DaySeconds + 8 * 3600, 1, [Mark(9, 0)]) == [3600]
    ensures Delays(day * DaySeconds + 10 * 3600, 1, [Mark(9, 0)]) == []
    ensures Delays(day * DaySeconds + 10 * 3600, 2, [Mark(9, 0)]) == [23 * 3600]
  {
    var early, late := day * DaySeconds + 8 * 3600, day * DaySeconds + 10 * 3600;
    assert early % DaySeconds == 8 * 3600;
    assert late % DaySeconds == 10 * 3600;
    DelayFormula(early, 0, Mark(9, 0));
    DelayFormula(late, 0, Mark(9, 0));
    DelayFormula(late, 1, Mark(9, 0));
    assert [Mark(9, 0)][..0] == [];
    assert DayDelays(early, 0, [Mark(9, 0)]) == [3600];
    assert DayDelays(late, 0, [Mark(9, 0)]) == [];
    assert DayDelays(late, 1, [Mark(9, 0)]) == [23 * 3600];
  }
}
