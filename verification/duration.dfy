/**
 * Reminder offsets (crates/calendar/src/idmap.rs:483-523): whole minutes of an RFC 5545 duration, with the overflow
 * checks of 64-bit integers.
 */
module Durations {
  import opened Wrappers

  const I64_MAX: int := 0x7FFF_FFFF_FFFF_FFFF

  predicate IsDigit(c: char) {
    '0' <= c <= '9'
  }

  predicate AllDigits(s: string) {
    forall i :: 0 <= i < |s| ==> IsDigit(s[i])
  }

  function DigitValue(c: char): (r: nat) {
    if IsDigit(c) then (c - '0') as nat else 0
  }

  /** The number these digits denote. */
  function Value(digits: string): (r: nat) {
    if digits == "" then 0 else 10 * Value(digits[..|digits| - 1]) + DigitValue(digits[|digits| - 1])
  }

  /** `parse::<i64>` on digits. */
  function ParseI64(digits: string): (r: Option<nat>) {
    if digits == "" || Value(digits) > I64_MAX then None else Some(Value(digits))
  }

  /** The number in progress, if any digit was read. */
  function Pending(digits: string): (r: Option<nat>) {
    if digits == "" then None else Some(Value(digits))
  }

  lemma PendingGrows(digits: string, c: char)
    ensures Pending(digits + [c]) == Some(10 * (match Pending(digits) case Some(v) => v case None => 0) + DigitValue(c))
  {
    assert (digits + [c])[..|digits|] == digits;
  }

  /** Weeks and days before the T, hours, minutes and seconds after it. */
  predicate Allowed(inTime: bool, c: char) {
    if inTime then c == 'H' || c == 'M' || c == 'S' else c == 'W' || c == 'D'
  }

  function InSeconds(count: nat, c: char): (seconds: nat)
    ensures count <= seconds
  {
    if c == 'W' then count * (7 * 86_400)
    else if c == 'D' then count * 86_400
    else if c == 'H' then count * 3_600
    else if c == 'M' then count * 60
    else count
  }

  /** Seconds of one field; nothing where its unit is not allowed. */
  function Worth(count: nat, inTime: bool, c: char): (r: nat) {
    if Allowed(inTime, c) then InSeconds(count, c) else 0
  }

  // ---------------------------------------------------------------- the scanner

  datatype Scan = Scan(total: int, inTime: bool, sawField: bool, pending: Option<nat>)

  const START := Scan(0, false, false, None)

  predicate ValidScan(st: Scan) {
    0 <= st.total <= I64_MAX
  }

  /** One character; None when the whole text is refused. */
  function Step(st: Scan, c: char): (r: Option<Scan>)
    requires ValidScan(st)
    ensures r.Some? ==> ValidScan(r.value)
  {
    if c == 'T' then Some(st.(inTime := true))
    else if IsDigit(c) then
      Some(st.(pending := Some(10 * (match st.pending case Some(v) => v case None => 0) + DigitValue(c))))
    else
      match st.pending
      case None => None
      case Some(count) =>
        if count > I64_MAX || !Allowed(st.inTime, c) || InSeconds(count, c) > I64_MAX || st.total + InSeconds(count, c) > I64_MAX then None
        else Some(Scan(st.total + InSeconds(count, c), st.inTime, true, None))
  }

  function Run(st: Scan, s: string): (r: Option<Scan>)
    requires ValidScan(st)
    ensures r.Some? ==> ValidScan(r.value)
    decreases |s|
  {
    if s == "" then Some(st)
    else
      match Run(st, s[..|s| - 1])
      case None => None
      case Some(before) => Step(before, s[|s| - 1])
  }

  /** What follows the optional sign and the P. */
  function Body(value: string): (r: Option<string>) {
    var unsigned := if value != "" && (value[0] == '-' || value[0] == '+') then value[1..] else value;
    if unsigned != "" && unsigned[0] == 'P' then Some(unsigned[1..]) else None
  }

  function BodyMinutes(body: string): (r: Option<int>) {
    match Run(START, body)
    case None => None
    case Some(st) => if !st.sawField || st.pending.Some? then None else Some(st.total / 60)
  }

  function Minutes(value: string): (r: Option<int>) {
    match Body(value)
    case None => None
    case Some(body) => BodyMinutes(body)
  }

  method Iso8601DurationMinutes(value: string) returns (r: Option<int>)
    ensures r == Minutes(value)
  {
    var body := Body(value);
    if body == None {
      return None;
    }
    r := ScanBody(body.value);
  }

  /** The loop over the characters after the P. */
  method ScanBody(text: string) returns (r: Option<int>)
    ensures r == BodyMinutes(text)
  {
    var totalSeconds, inTime, sawField, number := 0, false, false, "";
    for i := 0 to |text|
      invariant ValidScan(Scan(totalSeconds, inTime, sawField, Pending(number)))
      invariant Run(START, text[..i]) == Some(Scan(totalSeconds, inTime, sawField, Pending(number)))
    {
      var c := text[i];
      assert text[..i + 1][..i] == text[..i];
      NextCharacter(totalSeconds, inTime, sawField, number, c);
      RefusedStays(text, i + 1);
      if c == 'T' {
        inTime := true;
      } else if IsDigit(c) {
        number := number + [c];
      } else {
        var count := ParseI64(number);
        if count == None {
          return None;
        }
        number := "";
        sawField := true;
        if !Allowed(inTime, c) {
          return None;
        }
        var seconds := InSeconds(count.value, c);
        if seconds > I64_MAX {
          return None;
        }
        if totalSeconds + seconds > I64_MAX {
          return None;
        }
        totalSeconds := totalSeconds + seconds;
      }
    }
    assert text[..|text|] == text;
    if !sawField || number != "" {
      return None;
    }
    r := Some((if totalSeconds < 0 then -totalSeconds else totalSeconds) / 60);
  }

  /** What a character makes of the scan, in terms of the scanner's variables. */
  lemma NextCharacter(totalSeconds: int, inTime: bool, sawField: bool, number: string, c: char)
    requires 0 <= totalSeconds <= I64_MAX
    ensures Step(Scan(totalSeconds, inTime, sawField, Pending(number)), c) ==
            if c == 'T' then Some(Scan(totalSeconds, true, sawField, Pending(number)))
            else if IsDigit(c) then Some(Scan(totalSeconds, inTime, sawField, Pending(number + [c])))
            else
              var count := ParseI64(number);
              if count.Some? && Allowed(inTime, c) && totalSeconds + InSeconds(count.value, c) <= I64_MAX
              then Some(Scan(totalSeconds + InSeconds(count.value, c), inTime, true, None))
              else None
  {
    PendingGrows(number, c);
  }

  lemma {:induction false} RefusedStays(s: string, n: nat)
    requires n <= |s|
    ensures Run(START, s[..n]) == None ==> Run(START, s) == None
    decreases |s| - n
  {
    if n == |s| {
      assert s[..n] == s;
    } else {
      assert s[..n + 1][..n] == s[..n];
      RefusedStays(s, n + 1);
    }
  }

  /** For every input whatever: an accepted result lies in 0..i64::MAX/60. */
  lemma AcceptedInRange(value: string)
    requires Minutes(value).Some?
    ensures 0 <= Minutes(value).value <= I64_MAX / 60
  {
    assert ValidScan(Run(START, Body(value).value).value);
  }

  // ---------------------------------------------------------------- what is accepted

  predicate IsUnit(c: char) {
    c != 'T' && !IsDigit(c)
  }

  /** The digits since the last unit; a T between them does not end the number. */
  function DigitsSince(s: string): (r: string) {
    if s == "" then ""
    else
      var before, c := s[..|s| - 1], s[|s| - 1];
      if c == 'T' then DigitsSince(before) else if IsDigit(c) then DigitsSince(before) + [c] else ""
  }

  /** The unit at this place is allowed there (after some T or before any) and follows a number. */
  predicate UnitOk(s: string, i: nat)
    requires i < |s|
  {
    DigitsSince(s[..i]) != "" && Allowed('T' in s[..i], s[i])
  }

  /** The seconds of all fields; a misplaced unit counts nothing. */
  function Seconds(s: string): (r: nat) {
    if s == "" then 0
    else
      var before, c := s[..|s| - 1], s[|s| - 1];
      Seconds(before) + if IsUnit(c) then Worth(Value(DigitsSince(before)), 'T' in before, c) else 0
  }

  ghost predicate WellFormed(s: string) {
    forall i :: 0 <= i < |s| && IsUnit(s[i]) ==> UnitOk(s, i)
  }

  /** A unit is taken exactly when it follows a number, is allowed here and the new total fits. */
  lemma UnitStep(st: Scan, c: char)
    requires ValidScan(st) && IsUnit(c)
    ensures Step(st, c) ==
            if st.pending.Some? && Allowed(st.inTime, c) && st.total + Worth(st.pending.value, st.inTime, c) <= I64_MAX
            then Some(Scan(st.total + Worth(st.pending.value, st.inTime, c), st.inTime, true, None)) else None
  {
  }

  /** What the scanner knows after this text. */
  ghost function Knows(s: string): (r: Scan) {
    Scan(Seconds(s), 'T' in s, HasUnit(s), Pending(DigitsSince(s)))
  }

  lemma {:induction false} StepExactly(before: string, c: char)
    requires Seconds(before) <= I64_MAX
    ensures var s := before + [c];
            Step(Knows(before), c) ==
            if (IsUnit(c) ==> UnitOk(s, |before|)) && Seconds(s) <= I64_MAX then Some(Knows(s)) else None
  {
    assert (before + [c])[..|before|] == before;
    KnowsAppended(before, c);
    if IsUnit(c) {
      UnitStep(Knows(before), c);
    } else if IsDigit(c) {
      PendingGrows(DigitsSince(before), c);
    }
  }

  lemma KnowsAppended(before: string, c: char)
    ensures var s := before + [c];
            && Seconds(s) == Seconds(before) + (if IsUnit(c) then Worth(Value(DigitsSince(before)), 'T' in before, c) else 0)
            && DigitsSince(s) == (if c == 'T' then DigitsSince(before) else if IsDigit(c) then DigitsSince(before) + [c] else "")
            && (HasUnit(s) <==> HasUnit(before) || IsUnit(c))
            && ('T' in s <==> 'T' in before || c == 'T')
  {
    var s := before + [c];
    assert s[..|s| - 1] == before;
    HasUnitPrefix(s);
  }

  lemma {:induction false} RunExactly(s: string)
    ensures Run(START, s) == if WellFormed(s) && Seconds(s) <= I64_MAX then Some(Knows(s)) else None
  {
    if s != "" {
      var before, c := s[..|s| - 1], s[|s| - 1];
      RunExactly(before);
      WellFormedPrefix(s);
      if Seconds(before) <= I64_MAX {
        StepExactly(before, c);
        assert before + [c] == s;
      }
    }
  }

  lemma WellFormedPrefix(s: string)
    requires s != ""
    ensures WellFormed(s) <==>
            WellFormed(s[..|s| - 1]) && (IsUnit(s[|s| - 1]) ==> UnitOk(s, |s| - 1))
  {
    var before := s[..|s| - 1];
    assert forall i :: 0 <= i < |before| ==> before[i] == s[i] && before[..i] == s[..i];
    if WellFormed(s) {
      forall i | 0 <= i < |before| && IsUnit(before[i]) ensures UnitOk(before, i) {
        assert UnitOk(s, i);
      }
    }
    if WellFormed(before) && (IsUnit(s[|s| - 1]) ==> UnitOk(s, |s| - 1)) {
      forall i | 0 <= i < |s| && IsUnit(s[i]) ensures UnitOk(s, i) {
        if i < |before| {
          assert UnitOk(before, i);
        }
      }
    }
  }

  ghost predicate HasUnit(s: string) {
    exists i :: 0 <= i < |s| && IsUnit(s[i])
  }

  lemma HasUnitPrefix(s: string)
    requires s != ""
    ensures HasUnit(s) <==> IsUnit(s[|s| - 1]) || HasUnit(s[..|s| - 1])
  {
    if i :| 0 <= i < |s| - 1 && IsUnit(s[i]) {
      assert IsUnit(s[..|s| - 1][i]);
    }
  }

  /**
   * For every input: it is accepted exactly when it is an optional sign, a P, and text that holds a unit, ends no field
   * with a loose number, has only allowed units each after a number, and whose seconds fit; the result is then those
   * seconds in whole minutes.
   */
  lemma AcceptedExactly(value: string)
    ensures Minutes(value) ==
            match Body(value)
            case None => None
            case Some(s) =>
              if WellFormed(s) && HasUnit(s) && DigitsSince(s) == "" && Seconds(s) <= I64_MAX
              then Some(Seconds(s) / 60) else None
  {
    if Body(value).Some? {
      RunExactly(Body(value).value);
    }
  }

  // ---------------------------------------------------------------- the grammar of RFC 5545, section 3.3.6

  datatype Sign = Plus | Minus | Unsigned

  datatype Duration = Duration(sign: Sign, value: DurValue)

  datatype DurValue = DurDate(days: string, rest: Option<DurTime>) | DurTimeOnly(time: DurTime) | DurWeek(weeks: string)

  datatype DurTime = DurHour(hours: string, minutesToo: Option<DurMinute>) | DurMinutes(minute: DurMinute) | DurSecond(seconds: string)

  datatype DurMinute = DurMinute(minutes: string, secondsToo: Option<string>)

  /** A number and its unit. */
  datatype Field = Field(digits: string, unit: char)

  function MinuteFields(m: DurMinute): (r: seq<Field>) {
    [Field(m.minutes, 'M')] + if m.secondsToo.Some? then [Field(m.secondsToo.value, 'S')] else []
  }

  function TimeFields(t: DurTime): (r: seq<Field>) {
    match t
    case DurHour(hours, minutes) => [Field(hours, 'H')] + if minutes.Some? then MinuteFields(minutes.value) else []
    case DurMinutes(minute) => MinuteFields(minute)
    case DurSecond(seconds) => [Field(seconds, 'S')]
  }

  function DateField(v: DurValue): (r: seq<Field>) {
    match v
    case DurDate(days, _) => [Field(days, 'D')]
    case DurTimeOnly(_) => []
    case DurWeek(weeks) => [Field(weeks, 'W')]
  }

  function TimePart(v: DurValue): (r: Option<DurTime>) {
    match v
    case DurDate(_, rest) => rest
    case DurTimeOnly(time) => Some(time)
    case DurWeek(_) => None
  }

  function FieldText(fields: seq<Field>): (r: string) {
    if fields == [] then ""
    else FieldText(fields[..|fields| - 1]) + (fields[|fields| - 1].digits + [fields[|fields| - 1].unit])
  }

  function SignText(sign: Sign): (r: string) {
    match sign case Plus => "+" case Minus => "-" case Unsigned => ""
  }

  function BodyText(v: DurValue): (r: string) {
    FieldText(DateField(v)) + match TimePart(v) case None => "" case Some(t) => "T" + FieldText(TimeFields(t))
  }

  function Text(d: Duration): (r: string) {
    SignText(d.sign) + "P" + BodyText(d.value)
  }

  /** Every number has at least one digit and nothing but digits. */
  predicate Numbered(fields: seq<Field>) {
    forall i :: 0 <= i < |fields| ==> fields[i].digits != "" && AllDigits(fields[i].digits)
  }

  predicate Grammatical(d: Duration) {
    Numbered(DateField(d.value)) && (TimePart(d.value).Some? ==> Numbered(TimeFields(TimePart(d.value).value)))
  }

  function Amount(fields: seq<Field>, inTime: bool): (r: nat) {
    if fields == [] then 0
    else
      var last := fields[|fields| - 1];
      Amount(fields[..|fields| - 1], inTime) + Worth(Value(last.digits), inTime, last.unit)
  }

  /** What the duration denotes: its magnitude in seconds. */
  function TotalSeconds(d: Duration): (r: nat) {
    BodySeconds(d.value)
  }

  lemma {:induction false} RunConcat(st: Scan, a: string, b: string)
    requires ValidScan(st)
    ensures Run(st, a + b) == match Run(st, a) case None => None case Some(mid) => Run(mid, b)
    decreases |b|
  {
    if b == "" {
      assert a + b == a;
    } else {
      RunConcat(st, a, b[..|b| - 1]);
      assert (a + b)[..|a + b| - 1] == a + b[..|b| - 1];
    }
  }

  lemma {:induction false} RunDigits(st: Scan, digits: string)
    requires ValidScan(st) && st.pending == None && AllDigits(digits)
    ensures Run(st, digits) == Some(st.(pending := Pending(digits)))
    decreases |digits|
  {
    if digits != "" {
      var before := digits[..|digits| - 1];
      RunDigits(st, before);
      PendingGrows(before, digits[|digits| - 1]);
      assert before + [digits[|digits| - 1]] == digits;
    }
  }

  lemma RunOne(st: Scan, c: char)
    requires ValidScan(st)
    ensures Run(st, [c]) == Step(st, c)
  {
    assert [c][..0] == "";
    assert Run(st, "") == Some(st);
  }

  /** The state after text worth so many seconds, or None where they do not fit. */
  function After(st: Scan, seconds: nat, sawField: bool): (r: Option<Scan>) {
    if st.total + seconds > I64_MAX then None else Some(Scan(st.total + seconds, st.inTime, sawField, None))
  }

  lemma RunField(st: Scan, f: Field)
    requires ValidScan(st) && st.pending == None && f.digits != "" && AllDigits(f.digits) && IsUnit(f.unit)
    requires Allowed(st.inTime, f.unit)
    ensures Run(st, f.digits + [f.unit]) == After(st, Worth(Value(f.digits), st.inTime, f.unit), true)
  {
    var mid := st.(pending := Some(Value(f.digits)));
    RunDigits(st, f.digits);
    RunConcat(st, f.digits, [f.unit]);
    RunUnit(st, Value(f.digits), f.unit);
  }

  lemma RunUnit(st: Scan, count: nat, c: char)
    requires ValidScan(st) && IsUnit(c) && Allowed(st.inTime, c)
    ensures Run(st.(pending := Some(count)), [c]) == After(st, Worth(count, st.inTime, c), true)
  {
    RunOne(st.(pending := Some(count)), c);
    UnitStep(st.(pending := Some(count)), c);
  }

  /** Text worth so much after text worth so much. */
  lemma RunAfter(st: Scan, text: string, tail: string, seconds: nat, more: nat, sawField: bool)
    requires ValidScan(st) && Run(st, text) == After(st, seconds, sawField)
    requires st.total + seconds <= I64_MAX ==>
               Run(Scan(st.total + seconds, st.inTime, sawField, None), tail) == After(Scan(st.total + seconds, st.inTime, sawField, None), more, true)
    ensures Run(st, text + tail) == After(st, seconds + more, true)
  {
    RunConcat(st, text, tail);
  }

  lemma {:induction false} RunFields(st: Scan, fields: seq<Field>)
    requires ValidScan(st) && st.pending == None && Numbered(fields)
    requires forall i :: 0 <= i < |fields| ==> IsUnit(fields[i].unit) && Allowed(st.inTime, fields[i].unit)
    ensures Run(st, FieldText(fields)) == After(st, Amount(fields, st.inTime), st.sawField || fields != [])
    decreases |fields|
  {
    if fields != [] {
      var before, last := fields[..|fields| - 1], fields[|fields| - 1];
      var text, tail := FieldText(before), last.digits + [last.unit];
      var sofar, more, saw := Amount(before, st.inTime), Worth(Value(last.digits), st.inTime, last.unit), st.sawField || before != [];
      assert Run(st, text + tail) == After(st, sofar + more, true) by {
        RunFields(st, before);
        if st.total + sofar <= I64_MAX {
          RunField(Scan(st.total + sofar, st.inTime, saw, None), last);
        }
        RunAfter(st, text, tail, sofar, more, saw);
      }
    }
  }

  /**
   * The scanner is exact on the whole grammar: the floor of the total seconds over 60 with the sign ignored, or None
   * exactly when the total does not fit 64 bits.
   */
  lemma ExactOnTheGrammar(d: Duration)
    requires Grammatical(d)
    ensures Minutes(Text(d)) == if TotalSeconds(d) <= I64_MAX then Some(TotalSeconds(d) / 60) else None
  {
    BodyOfText(d);
    RunBody(d.value);
  }

  function BodySeconds(v: DurValue): (r: nat) {
    Amount(DateField(v), false) + match TimePart(v) case Some(t) => Amount(TimeFields(t), true) case None => 0
  }

  lemma RunBody(v: DurValue)
    requires Numbered(DateField(v)) && (TimePart(v).Some? ==> Numbered(TimeFields(TimePart(v).value)))
    ensures Run(START, BodyText(v)) ==
            if BodySeconds(v) > I64_MAX then None else Some(Scan(BodySeconds(v), TimePart(v).Some?, true, None))
  {
    var dates := DateField(v);
    match TimePart(v)
    case None =>
      assert FieldText(dates) + "" == FieldText(dates);
      assert Run(START, FieldText(dates)) == After(START, Amount(dates, false), true) by {
        RunFields(START, dates);
      }
    case Some(t) =>
      var times := TimeFields(t);
      assert Run(START, FieldText(dates) + ("T" + FieldText(times))) == Timed(Amount(dates, false) + Amount(times, true)) by {
        TimeUnits(t);
        RunDateAndTime(dates, times);
      }
  }

  lemma TimeUnits(t: DurTime)
    ensures forall i :: 0 <= i < |TimeFields(t)| ==> IsUnit(TimeFields(t)[i].unit) && Allowed(true, TimeFields(t)[i].unit)
    ensures TimeFields(t) != []
  {
  }

  lemma {:induction false} RunDateAndTime(dates: seq<Field>, times: seq<Field>)
    requires Numbered(dates) && Numbered(times) && times != []
    requires forall i :: 0 <= i < |dates| ==> IsUnit(dates[i].unit) && Allowed(false, dates[i].unit)
    requires forall i :: 0 <= i < |times| ==> IsUnit(times[i].unit) && Allowed(true, times[i].unit)
    ensures Run(START, FieldText(dates) + ("T" + FieldText(times))) == Timed(Amount(dates, false) + Amount(times, true))
  {
    var early, late, saw := Amount(dates, false), Amount(times, true), dates != [];
    assert Run(START, FieldText(dates)) == After(START, early, saw) by {
      RunFields(START, dates);
    }
    assert early <= I64_MAX ==> Run(Scan(early, true, saw, None), FieldText(times)) == After(Scan(early, true, saw, None), late, true) by {
      if early <= I64_MAX {
        RunFields(Scan(early, true, saw, None), times);
      }
    }
    assert Run(START, FieldText(dates) + ("T" + FieldText(times))) == Timed(early + late) by {
      RunThenTime(FieldText(dates), early, saw, FieldText(times), late);
    }
  }

  /** After a T and a field: None where the seconds do not fit. */
  function Timed(total: nat): (r: Option<Scan>) {
    if total > I64_MAX then None else Some(Scan(total, true, true, None))
  }

  lemma RunThenTime(text: string, early: nat, saw: bool, tail: string, late: nat)
    requires Run(START, text) == After(START, early, saw)
    requires early <= I64_MAX ==> Run(Scan(early, true, saw, None), tail) == After(Scan(early, true, saw, None), late, true)
    ensures Run(START, text + ("T" + tail)) == Timed(early + late)
  {
    RunConcat(START, text, "T" + tail);
    if early <= I64_MAX {
      var mid := Scan(early, false, saw, None);
      assert Run(mid, "T" + tail) == Run(mid.(inTime := true), tail) by {
        RunConcat(mid, "T", tail);
        RunOne(mid, 'T');
      }
    }
  }

  lemma BodyOfText(d: Duration)
    ensures Body(Text(d)) == Some(BodyText(d.value))
  {
    var unsigned := "P" + BodyText(d.value);
    assert unsigned[1..] == BodyText(d.value);
    match d.sign
    case Plus => assert Text(d)[1..] == unsigned;
    case Minus => assert Text(d)[1..] == unsigned;
    case Unsigned => assert Text(d) == unsigned;
  }

  // ---------------------------------------------------------------- more is accepted than the grammar allows

  /** In the grammar no digit is directly followed by a T. */
  predicate DigitBeforeT(s: string) {
    exists i :: 0 < i < |s| && s[i] == 'T' && IsDigit(s[i - 1])
  }

  lemma {:induction false} FieldTextShape(fields: seq<Field>)
    requires Numbered(fields) && forall i :: 0 <= i < |fields| ==> fields[i].unit in "WDHMS"
    ensures 'T' !in FieldText(fields)
    ensures fields != [] ==> FieldText(fields) != "" && !IsDigit(FieldText(fields)[|FieldText(fields)| - 1])
  {
    if fields != [] {
      FieldTextShape(fields[..|fields| - 1]);
    }
  }

  lemma GrammarHasNoDigitBeforeT(d: Duration)
    requires Grammatical(d)
    ensures !DigitBeforeT(Text(d))
  {
    var dates := FieldText(DateField(d.value));
    FieldTextShape(DateField(d.value));
    var head := SignText(d.sign) + "P" + dates;
    assert 'T' !in head && !IsDigit(head[|head| - 1]);
    match TimePart(d.value)
    case None =>
      Reassociated(SignText(d.sign) + "P", dates, "", "");
      assert forall i :: 0 <= i < |head| ==> head[i] in head;
    case Some(t) =>
      FieldTextShape(TimeFields(t));
      OneT(head, FieldText(TimeFields(t)));
      Reassociated(SignText(d.sign) + "P", dates, "T", FieldText(TimeFields(t)));
  }

  lemma Reassociated(a: string, b: string, c: string, d: string)
    ensures a + (b + (c + d)) == a + b + c + d
  {
  }

  lemma OneT(head: string, tail: string)
    requires 'T' !in head && 'T' !in tail && head != "" && !IsDigit(head[|head| - 1])
    ensures !DigitBeforeT(head + "T" + tail)
  {
    var s := head + "T" + tail;
    assert forall i :: 0 <= i < |head| ==> s[i] == head[i];
    assert forall i :: |head| < i < |s| ==> s[i] == tail[i - |head| - 1];
  }

  lemma OneTTwoH()
    ensures Run(START, "1T2H") == Some(Scan(12 * 3_600, true, true, None))
  {
    var one, inTime, twelve := START.(pending := Some(1)), Scan(0, true, false, Some(1)), Scan(0, true, false, Some(12));
    RunOne(START, '1');
    RunConcat(START, "1", "T");
    RunOne(one, 'T');
    RunConcat(START, "1T", "2");
    RunOne(inTime, '2');
    RunConcat(START, "1T2", "H");
    RunOne(twelve, 'H');
    UnitStep(twelve, 'H');
    assert "1" + "T" == "1T" && "1T" + "2" == "1T2" && "1T2" + "H" == "1T2H";
  }

  /**
   * The documentation promises None for a malformed duration, but a T does not end the number before it: `P1T2H` reads
   * as twelve hours although no duration of the grammar is written like this.
   */
  lemma MalformedAccepted(d: Duration)
    requires Grammatical(d)
    ensures Minutes("P1T2H") == Some(720) && Text(d) != "P1T2H"
  {
    OneTTwoH();
    assert "P1T2H"[1..] == "1T2H";
    GrammarHasNoDigitBeforeT(d);
    assert DigitBeforeT("P1T2H") by {
      assert "P1T2H"[2] == 'T' && IsDigit("P1T2H"[1]);
    }
  }
}
