/** The expressions the patient dashboard computes (components/Dashboard.tsx):
    the check-in banner test, the masked card, the greeting name and the
    day/month tiles of the appointment list. */
module Dashboard {
  import opened Wrappers
  import opened Types
  import opened JsString

  /** `appointments[0]`, which is `undefined` for an empty list. */
  function NextAppointment(apts: seq<Appointment>): (next: Option<Appointment>)
    ensures next.Some? <==> |apts| > 0
    ensures next.Some? ==> next.value == apts[0]
  {
    if |apts| == 0 then None else Some(apts[0])
  }

  /** `nextAppt?.checkInStatus === CheckInStatus.AVAILABLE`: the banner is
      offered exactly when the first appointment is available; an empty
      list gives false rather than an error. */
  function IsCheckInAvailable(apts: seq<Appointment>): (available: bool)
    ensures available <==> |apts| > 0 && apts[0].checkInStatus == CheckInStatus.Available
    ensures apts == [] ==> !available
  {
    var next := NextAppointment(apts);
    next.Some? && next.value.checkInStatus == CheckInStatus.Available
  }

  /** `s.slice(0, n)`. */
  function SliceHead(s: string, n: nat): (r: string)
    ensures |r| == if |s| < n then |s| else n
    ensures r == s[..|r|]
  {
    if |s| < n then s else s[..n]
  }

  /** `s.slice(-n)` for n > 0: the last n characters, or all of a shorter
      string. (`slice(-0)` would be the whole string.) */
  function SliceTail(s: string, n: nat): (r: string)
    requires n > 0
    ensures |r| == if |s| < n then |s| else n
    ensures r == s[|s| - |r|..]
  {
    if |s| < n then s else s[|s| - n..]
  }

  /** `cardNumber.slice(0, 4) + " **** **** " + cardNumber.slice(-4)`: for a
      number of at least four characters, nineteen characters — the first
      four, the fixed mask, the last four. */
  function MaskedCard(card: string): (m: string)
    ensures |card| >= 4 ==> |m| == 19
    ensures |card| >= 4 ==> m[..4] == card[..4] && m[4..15] == " **** **** " && m[15..] == card[|card| - 4..]
    ensures |card| < 4 ==> m == card + " **** **** " + card
  {
    SliceHead(card, 4) + " **** **** " + SliceTail(card, 4)
  }

  /** The characters between the first four and the last four never reach
      the screen: two numbers that agree on those show the same mask. */
  lemma MaskHidesMiddle(c1: string, c2: string)
    requires |c1| >= 4 && |c2| >= 4
    requires c1[..4] == c2[..4] && c1[|c1| - 4..] == c2[|c2| - 4..]
    ensures MaskedCard(c1) == MaskedCard(c2)
  {
    var m1, m2 := MaskedCard(c1), MaskedCard(c2);
    assert m1 == m1[..4] + m1[4..15] + m1[15..];
    assert m2 == m2[..4] + m2[4..15] + m2[15..];
  }

  /** `patient.name.split(' ')[0]`: the name up to its first space, or the
      whole name when it has none. */
  function FirstName(name: string): (first: string)
    ensures ' ' !in first
    ensures |first| <= |name| && first == name[..|first|]
    ensures |first| == |name| || name[|first|] == ' '
  {
    Split(name, ' ')[0]
  }

  /** The two lines of an appointment tile. */
  datatype DateTile = DateTile(day: string, month: Option<string>)

  /** `date.split('/')[0]` and `date.split('/')[1]`, the latter `undefined`
      when the date has no '/'. */
  function Tile(date: string): (t: DateTile)
    ensures '/' !in t.day && |t.day| <= |date| && t.day == date[..|t.day|]
    ensures |t.day| == |date| || date[|t.day|] == '/'
    ensures t.month.None? <==> '/' !in date
    ensures t.month.Some? ==> '/' !in t.month.value
    ensures t.month.Some? ==>
      |t.day| + 1 + |t.month.value| <= |date| &&
      date[..|t.day| + 1 + |t.month.value|] == t.day + "/" + t.month.value
    ensures t.month.Some? ==>
      |t.day| + 1 + |t.month.value| == |date| || date[|t.day| + 1 + |t.month.value|] == '/'
  {
    var parts := Split(date, '/');
    var i := IndexOf(date, '/');
    if i == |date| then
      assert '/' !in date;
      DateTile(parts[0], None)
    else
      var rest := date[i + 1..];
      assert parts == [date[..i]] + Split(rest, '/');
      var month := Split(rest, '/')[0];
      assert date[..i + 1 + |month|] == date[..i] + "/" + rest[..|month|];
      DateTile(parts[0], Some(month))
  }

  /** A "day/month" date gives its day and month. */
  lemma TileOfDayMonth(day: string, month: string)
    requires '/' !in day && '/' !in month
    ensures Tile(day + "/" + month) == DateTile(day, Some(month))
  {
    JoinThenSplit([day, month], '/');
    assert Join([day, month], "/") == day + "/" + month;
  }

  /** The demo card is shown as "0032 **** **** 5544". */
  lemma DemoMask(card: string)
    requires card == "0032998877665544"
    ensures MaskedCard(card) == "0032 **** **** 5544"
  {
    assert card[..4] == "0032" && card[12..] == "5544";
  }
}
