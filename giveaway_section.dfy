/** The two countdown widgets of src/components/GiveawaySection.tsx.

    `GiveawaySection` shows the time left before a raffle closes as
    "HH:MM:SS" (hours within the current day), and "EXPIRED" once it has
    closed; the LIVE!/ENDED badge, the entry form and the submit button
    depend on that text. `LeaderboardPeriod` shows "Dd Hh Mm" or "Hh Mm"
    before the period ends and "Concluded" after, but only when active.

    The clock is not modelled: each timer tick receives the current time
    `now` in milliseconds, as `new Date().getTime()` returns it. */
module GiveawaySection {
  import opened Collections
  import opened Text
  import opened Arith

  const MsPerSecond: int := 1000
  const MsPerMinute: int := 60 * 1000
  const MsPerHour: int := 60 * 60 * 1000
  const MsPerDay: int := 24 * 60 * 60 * 1000

  // ---------------------------------------------------------------------
  // GiveawaySection: "HH:MM:SS"

  datatype Clock = Clock(hours: nat, minutes: nat, seconds: nat)

  /** The hours, minutes and seconds `updateTimer` extracts from a positive
      distance: whole days are dropped, the rest is cut into units, and less
      than one second is left over. */
  function ClockParts(distance: int): (c: Clock)
    requires distance > 0
    ensures c.hours < 24 && c.minutes < 60 && c.seconds < 60
    ensures var inDay := distance % MsPerDay;
            var counted := c.hours * MsPerHour + c.minutes * MsPerMinute + c.seconds * MsPerSecond;
            counted <= inDay < counted + MsPerSecond
  {
    var inDay := distance % MsPerDay;
    var inHour := distance % MsPerHour;
    var inMinute := distance % MsPerMinute;
    RemainderOfRemainder(distance, MsPerDay, MsPerHour, 24);
    RemainderOfRemainder(distance, MsPerHour, MsPerMinute, 60);
    Clock(inDay / MsPerHour, inHour / MsPerMinute, inMinute / MsPerSecond)
  }

  /** Two digits, a colon, two digits, a colon, two digits. */
  predicate IsClockText(s: string) {
    && |s| == 8
    && IsDigit(s[0]) && IsDigit(s[1]) && s[2] == ':'
    && IsDigit(s[3]) && IsDigit(s[4]) && s[5] == ':'
    && IsDigit(s[6]) && IsDigit(s[7])
  }

  /** Reads hours, minutes and seconds back from a clock text. */
  function ReadClock(s: string): Clock
    requires IsClockText(s)
  {
    Clock(DigitsValue(s[0..2]), DigitsValue(s[3..5]), DigitsValue(s[6..8]))
  }

  /** The zero-padded template `${hh}:${mm}:${ss}`. */
  function ClockText(c: Clock): (s: string)
    requires c.hours < 100 && c.minutes < 100 && c.seconds < 100
    ensures IsClockText(s) && ReadClock(s) == c
  {
    var s := Pad2(c.hours) + ":" + Pad2(c.minutes) + ":" + Pad2(c.seconds);
    ClockLayout(Pad2(c.hours), ":", Pad2(c.minutes), ":", Pad2(c.seconds));
    s
  }

  /** Where the three two-character fields and the two separators of a clock
      text lie. */
  lemma ClockLayout<T>(hh: seq<T>, sep1: seq<T>, mm: seq<T>, sep2: seq<T>, ss: seq<T>)
    requires |hh| == 2 && |sep1| == 1 && |mm| == 2 && |sep2| == 1 && |ss| == 2
    ensures var s := hh + sep1 + mm + sep2 + ss;
            && |s| == 8
            && s[0..2] == hh && s[3..5] == mm && s[6..8] == ss
            && s[0] == hh[0] && s[1] == hh[1] && s[2] == sep1[0]
            && s[3] == mm[0] && s[4] == mm[1] && s[5] == sep2[0]
            && s[6] == ss[0] && s[7] == ss[1]
  {
    var s := hh + sep1 + mm + sep2 + ss;
    assert s[0..2] == hh;
    assert s[3..5] == mm;
    assert s[6..8] == ss;
  }

  /** The text `updateTimer` stores for a distance in milliseconds: "EXPIRED"
      exactly when the end time has been reached, otherwise a clock text that
      reads back as the hours, minutes and seconds left in the day. */
  function Countdown(distance: int): (s: string)
    ensures s == "EXPIRED" <==> distance <= 0
    ensures distance > 0 ==> IsClockText(s) && ReadClock(s) == ClockParts(distance)
  {
    if distance > 0 then ClockText(ClockParts(distance)) else "EXPIRED"
  }

  /** The badge: "LIVE!" while the raffle is live and the text is not "EXPIRED". */
  function LiveBadge(isLive: bool, timeLeft: string): string {
    if isLive && timeLeft != "EXPIRED" then "LIVE!" else "ENDED"
  }

  /** The codeword form is shown on the same condition as the LIVE! badge. */
  predicate EntryFormShown(isLive: bool, timeLeft: string) {
    isLive && timeLeft != "EXPIRED"
  }

  /** Once a tick has run, the badge reads LIVE! exactly while the raffle is
      live and its end lies in the future, and the form is shown exactly then. */
  lemma BadgeAfterTick(isLive: bool, distance: int)
    ensures LiveBadge(isLive, Countdown(distance)) == "LIVE!" <==> isLive && distance > 0
    ensures LiveBadge(isLive, Countdown(distance)) == "ENDED" <==> !(isLive && distance > 0)
    ensures EntryFormShown(isLive, Countdown(distance)) <==> LiveBadge(isLive, Countdown(distance)) == "LIVE!"
  {
  }

  /** The characters `String.prototype.trim` removes: white space and line terminators. */
  predicate IsJsSpace(c: char) {
    var u := c as int;
    u == 0x09 || u == 0x0A || u == 0x0B || u == 0x0C || u == 0x0D || u == 0x20
    || u == 0xA0 || u == 0x1680 || (0x2000 <= u <= 0x200A) || u == 0x2028 || u == 0x2029
    || u == 0x202F || u == 0x205F || u == 0x3000 || u == 0xFEFF
  }

  /** Drops the leading white space. */
  function TrimStart(s: string): (r: string)
    ensures |r| <= |s| && r == s[|s| - |r|..]
    ensures forall i :: 0 <= i < |s| - |r| ==> IsJsSpace(s[i])
    ensures r == [] || !IsJsSpace(r[0])
    decreases |s|
  {
    if s != [] && IsJsSpace(s[0]) then TrimStart(s[1..]) else s
  }

  /** Drops the trailing white space. */
  function TrimEnd(s: string): (r: string)
    ensures |r| <= |s| && r == s[..|r|]
    ensures forall i :: |r| <= i < |s| ==> IsJsSpace(s[i])
    ensures r == [] || !IsJsSpace(r[|r| - 1])
    decreases |s|
  {
    if s != [] && IsJsSpace(s[|s| - 1]) then TrimEnd(s[..|s| - 1]) else s
  }

  /** `r` is the infix of `s` at offset `k`, and only white space lies around it. */
  predicate TrimmedAt(s: string, r: string, k: int) {
    && 0 <= k <= |s| - |r|
    && r == s[k..k + |r|]
    && (forall i :: 0 <= i < k ==> IsJsSpace(s[i]))
    && (forall i :: k + |r| <= i < |s| ==> IsJsSpace(s[i]))
  }

  /** `s.trim()`: the longest infix of `s` that neither starts nor ends with
      white space, after dropping only white space. */
  function Trim(s: string): (r: string)
    ensures |r| <= |s|
    ensures r == [] || (!IsJsSpace(r[0]) && !IsJsSpace(r[|r| - 1]))
    ensures exists k :: TrimmedAt(s, r, k)
  {
    var front := TrimStart(s);
    var r := TrimEnd(front);
    TrimmedBetween(s, front, r);
    r
  }

  /** Dropping white space first from the start of `s`, giving `front`, and
      then from the end of `front`, giving `r`, leaves `r` at the offset
      where the leading white space ends. */
  lemma TrimmedBetween(s: string, front: string, r: string)
    requires |front| <= |s| && front == s[|s| - |front|..]
    requires forall i :: 0 <= i < |s| - |front| ==> IsJsSpace(s[i])
    requires |r| <= |front| && r == front[..|r|]
    requires forall i :: |r| <= i < |front| ==> IsJsSpace(front[i])
    ensures TrimmedAt(s, r, |s| - |front|)
  {
    PrefixOfSuffix(s, |s| - |front|, front, r, IsJsSpace);
  }

  /** A prefix `r` of the suffix `front` of `s` starting at `k` is the infix
      of `s` at `k`, and what follows it in `front` is what follows it in `s`. */
  lemma PrefixOfSuffix<T>(s: seq<T>, k: int, front: seq<T>, r: seq<T>, p: T -> bool)
    requires 0 <= k <= |s| && front == s[k..]
    requires |r| <= |front| && r == front[..|r|]
    requires forall i :: |r| <= i < |front| ==> p(front[i])
    ensures r == s[k..k + |r|]
    ensures forall i :: k + |r| <= i < |s| ==> p(s[i])
  {
    forall i | k + |r| <= i < |s|
      ensures p(s[i])
    {
      assert s[i] == front[i - k];
    }
  }

  /** "Submit Entry" is disabled while the codeword is empty after trimming. */
  predicate SubmitDisabled(codeword: string) {
    Trim(codeword) == []
  }

  /** The button is disabled exactly when the codeword is all white space. */
  lemma SubmitDisabledIffBlank(codeword: string)
    ensures SubmitDisabled(codeword) <==> forall i :: 0 <= i < |codeword| ==> IsJsSpace(codeword[i])
  {
    var front := TrimStart(codeword);
    if !forall i :: 0 <= i < |codeword| ==> IsJsSpace(codeword[i]) {
      var j :| 0 <= j < |codeword| && !IsJsSpace(codeword[j]);
      assert j >= |codeword| - |front|;
      assert front[j - (|codeword| - |front|)] == codeword[j];
    }
  }

  /** The raffle widget's state. `isLive` and `endTime` are its properties. */
  class Giveaway {
    const isLive: bool
    const endTime: int
    var timeLeft: string
    var codeword: string

    /** Before the first tick the text is empty; afterwards it is "EXPIRED"
        or a clock text. */
    ghost predicate Valid()
      reads this
    {
      timeLeft == "" || timeLeft == "EXPIRED" || IsClockText(timeLeft)
    }

    constructor (isLive: bool, endTime: int)
      ensures Valid()
      ensures this.isLive == isLive && this.endTime == endTime
      ensures timeLeft == "" && codeword == ""
    {
      this.isLive := isLive;
      this.endTime := endTime;
      timeLeft := "";
      codeword := "";
    }

    /** One run of `updateTimer` at time `now`: afterwards the badge reads
        LIVE! and the countdown is shown exactly while the end lies ahead. */
    method UpdateTimer(now: int)
      requires Valid()
      modifies this`timeLeft
      ensures Valid()
      ensures timeLeft == Countdown(endTime - now)
      ensures Badge() == "LIVE!" <==> isLive && endTime > now
      ensures TimerShown() <==> endTime > now
    {
      var distance := endTime - now;
      if distance > 0 {
        var c := ClockParts(distance);
        timeLeft := ClockText(c);
      } else {
        timeLeft := "EXPIRED";
      }
    }

    method SetCodeword(s: string)
      requires Valid()
      modifies this`codeword
      ensures Valid()
      ensures codeword == s
    {
      codeword := s;
    }

    /** The badge beside the title: LIVE! exactly when the entry form is shown. */
    function Badge(): (b: string)
      reads this
      ensures b == "LIVE!" || b == "ENDED"
      ensures b == "LIVE!" <==> EntryFormShown(isLive, timeLeft)
    {
      LiveBadge(isLive, timeLeft)
    }

    /** The countdown is hidden once it reads "EXPIRED"; what it shows is
        either nothing yet or a clock text, and while it is hidden the badge
        reads ENDED. */
    function TimerShown(): (shown: bool)
      requires Valid()
      reads this
      ensures shown <==> timeLeft == "" || IsClockText(timeLeft)
      ensures !shown ==> Badge() == "ENDED"
    {
      timeLeft != "EXPIRED"
    }

    /** "Submit Entry" can be pressed exactly while the form is shown and the
        codeword holds a character other than white space. */
    function CanSubmit(): (can: bool)
      reads this
      ensures can <==> isLive && timeLeft != "EXPIRED"
                       && exists i :: 0 <= i < |codeword| && !IsJsSpace(codeword[i])
      ensures can ==> Badge() == "LIVE!"
    {
      SubmitDisabledIffBlank(codeword);
      EntryFormShown(isLive, timeLeft) && !SubmitDisabled(codeword)
    }
  }

  // ---------------------------------------------------------------------
  // LeaderboardPeriod: "Dd Hh Mm"

  datatype Period = Period(days: nat, hours: nat, minutes: nat)

  /** The days, hours and minutes `updateTimer` extracts from a positive
      distance; less than one minute is left over. */
  function PeriodParts(distance: int): (p: Period)
    requires distance > 0
    ensures p.hours < 24 && p.minutes < 60
    ensures var counted := p.days * MsPerDay + p.hours * MsPerHour + p.minutes * MsPerMinute;
            counted <= distance < counted + MsPerMinute
  {
    var inDay := distance % MsPerDay;
    var inHour := distance % MsPerHour;
    RemainderOfRemainder(distance, MsPerDay, MsPerHour, 24);
    Period(distance / MsPerDay, inDay / MsPerHour, inHour / MsPerMinute)
  }

  /** `${days}d ${hours}h ${minutes}m`, or `${hours}h ${minutes}m` without days. */
  function PeriodText(p: Period): string {
    if p.days > 0 then
      Decimal(p.days) + ("d " + HoursMinutesText(p.hours, p.minutes))
    else
      HoursMinutesText(p.hours, p.minutes)
  }

  /** Reads "Hh Mm", with both numbers printed as template literals print them. */
  function ReadHoursMinutes(s: string): Option<(nat, nat)> {
    var (h, afterHours) := LeadingDigits(s);
    if Canonical(h) && |afterHours| >= 2 && afterHours[..2] == "h " then
      var (m, afterMinutes) := LeadingDigits(afterHours[2..]);
      if Canonical(m) && afterMinutes == "m" then Some((DigitsValue(h), DigitsValue(m))) else None
    else None
  }

  /** Reads "Dd Hh Mm" or "Hh Mm" back into days, hours and minutes. A day
      part is a printed positive number, since the widget leaves out zero days. */
  function ReadPeriod(s: string): Option<Period> {
    var (d, afterDays) := LeadingDigits(s);
    if Canonical(d) && DigitsValue(d) > 0 && |afterDays| >= 2 && afterDays[..2] == "d " then
      match ReadHoursMinutes(afterDays[2..])
      case Some((h, m)) => Some(Period(DigitsValue(d), h, m))
      case None => None
    else
      match ReadHoursMinutes(s)
      case Some((h, m)) => Some(Period(0, h, m))
      case None => None
  }

  /** A printed number followed by a non-digit splits off and reads back. */
  lemma NumberThen(n: nat, rest: string)
    requires rest == [] || !IsDigit(rest[0])
    ensures LeadingDigits(Decimal(n) + rest) == (Decimal(n), rest)
    ensures DigitsValue(Decimal(n)) == n
  {
    LeadingDigitsOf(Decimal(n), rest);
    DecimalRoundTrip(n);
  }

  /** "Hh Mm" as the period widget prints it. */
  function HoursMinutesText(h: nat, m: nat): string {
    Decimal(h) + ("h " + (Decimal(m) + "m"))
  }

  lemma ReadHoursMinutesOfText(h: nat, m: nat)
    ensures ReadHoursMinutes(HoursMinutesText(h, m)) == Some((h, m))
  {
    var tail := Decimal(m) + "m";
    var rest := "h " + tail;
    NumberThen(h, rest);
    NumberThen(m, "m");
    assert rest[..2] == "h ";
    assert rest[2..] == tail;
  }

  /** The reader accepts nothing but the printed text: whatever reads as
      hours and minutes is exactly their "Hh Mm". */
  lemma ReadHoursMinutesExact(s: string, h: nat, m: nat)
    requires ReadHoursMinutes(s) == Some((h, m))
    ensures s == HoursMinutesText(h, m)
  {
    var (hd, afterHours) := LeadingDigits(s);
    var (md, afterMinutes) := LeadingDigits(afterHours[2..]);
    CanonicalPrefix(afterHours[2..], md, afterMinutes);
    assert afterHours == "h " + afterHours[2..];
    CanonicalPrefix(s, hd, afterHours);
  }

  /** Whatever reads as a period is exactly that period's text, so a period
      has one text only. */
  lemma ReadPeriodExact(s: string, p: Period)
    requires ReadPeriod(s) == Some(p)
    ensures s == PeriodText(p)
  {
    var (d, afterDays) := LeadingDigits(s);
    if Canonical(d) && DigitsValue(d) > 0 && |afterDays| >= 2 && afterDays[..2] == "d " {
      ReadHoursMinutesExact(afterDays[2..], p.hours, p.minutes);
      assert afterDays == "d " + afterDays[2..];
      CanonicalPrefix(s, d, afterDays);
    } else {
      ReadHoursMinutesExact(s, p.hours, p.minutes);
    }
  }

  /** The period text loses nothing: it reads back as the days, hours and
      minutes it was made from. */
  lemma PeriodTextRoundTrip(p: Period)
    ensures ReadPeriod(PeriodText(p)) == Some(p)
  {
    if p.days > 0 {
      DaysTextRoundTrip(p);
    } else {
      HoursTextRoundTrip(p);
    }
  }

  /** With days: the number before "d " is the days, the rest reads as the
      hours and minutes. */
  lemma DaysTextRoundTrip(p: Period)
    requires p.days > 0
    ensures ReadPeriod(Decimal(p.days) + ("d " + HoursMinutesText(p.hours, p.minutes))) == Some(p)
  {
    var hm := HoursMinutesText(p.hours, p.minutes);
    ReadHoursMinutesOfText(p.hours, p.minutes);
    var rest := "d " + hm;
    NumberThen(p.days, rest);
    assert rest[..2] == "d ";
    assert rest[2..] == hm;
  }

  /** Without days: the leading number is followed by "h ", not "d ", so the
      whole text reads as hours and minutes. */
  lemma HoursTextRoundTrip(p: Period)
    requires p.days == 0
    ensures ReadPeriod(HoursMinutesText(p.hours, p.minutes)) == Some(p)
  {
    ReadHoursMinutesOfText(p.hours, p.minutes);
    var rest := "h " + (Decimal(p.minutes) + "m");
    NumberThen(p.hours, rest);
    assert rest[..2] == "h " && "h " != "d ";
  }

  /** No digit is the letter d. */
  lemma NoDayMarkInDigits(s: string)
    requires AllDigits(s)
    ensures 'd' !in s
  {
  }

  /** The text carries the letter d exactly when it has a day part. */
  lemma PeriodTextMarksDays(p: Period)
    ensures p.days > 0 <==> 'd' in PeriodText(p)
  {
    NoDayMarkInDigits(Decimal(p.hours));
    NoDayMarkInDigits(Decimal(p.minutes));
    var hm := HoursMinutesText(p.hours, p.minutes);
    assert 'd' !in hm by {
      assert 'd' !in "h " && 'd' !in "m";
    }
    if p.days > 0 {
      assert 'd' in "d " + hm by {
        assert ("d " + hm)[0] == 'd';
      }
    }
  }

  /** The text the period's `updateTimer` stores: "Concluded" exactly when the
      end date has passed, otherwise a text that reads back as the whole days,
      hours and minutes left, with the days left out when there are none. */
  function PeriodRemaining(distance: int): (s: string)
    ensures s == "Concluded" <==> distance <= 0
    ensures distance > 0 ==> ReadPeriod(s) == Some(PeriodParts(distance))
    ensures distance > 0 ==> forall t :: ReadPeriod(t) == Some(PeriodParts(distance)) ==> t == s
    ensures distance > 0 ==> (PeriodParts(distance).days > 0 <==> 'd' in s)
  {
    if distance > 0 then
      var p := PeriodParts(distance);
      PeriodTextRoundTrip(p);
      PeriodTextMarksDays(p);
      forall t | ReadPeriod(t) == Some(p)
        ensures t == PeriodText(p)
      {
        ReadPeriodExact(t, p);
      }
      assert PeriodText(p) != "Concluded" by {
        assert ReadPeriod("Concluded") == None by {
          assert LeadingDigits("Concluded") == ([], "Concluded");
        }
      }
      PeriodText(p)
    else
      "Concluded"
  }

  /** The period widget's state. `isActive` and `endDate` are its properties. */
  class PeriodTimer {
    const isActive: bool
    const endDate: int
    var timeLeft: string

    /** An inactive period never starts its timer, so its text stays empty. */
    ghost predicate Valid()
      reads this
    {
      !isActive ==> timeLeft == ""
    }

    constructor (isActive: bool, endDate: int)
      ensures Valid()
      ensures this.isActive == isActive && this.endDate == endDate && timeLeft == ""
    {
      this.isActive := isActive;
      this.endDate := endDate;
      timeLeft := "";
    }

    /** The effect's first `updateTimer` call and each minute's repeat: only an
        active period updates its text. */
    method UpdateTimer(now: int)
      requires Valid()
      modifies this`timeLeft
      ensures Valid()
      ensures isActive ==> timeLeft == PeriodRemaining(endDate - now)
      ensures !isActive ==> timeLeft == old(timeLeft)
      ensures ShowsConcludedNotice() <==> isActive && endDate <= now
    {
      if !isActive {
        return;
      }
      var distance := endDate - now;
      if distance > 0 {
        var p := PeriodParts(distance);
        timeLeft := PeriodText(p);
      } else {
        timeLeft := "Concluded";
      }
    }

    /** The badge beside the title, present only while the period is active. */
    function Badge(): (b: Option<string>)
      reads this
      ensures b.Some? <==> isActive
    {
      if !isActive then None
      else if timeLeft == "Concluded" then Some("Concluded")
      else Some(timeLeft + " left")
    }

    /** The "Leaderboard Concluded" notice appears exactly when the badge
        reads "Concluded". */
    function ShowsConcludedNotice(): (shown: bool)
      requires Valid()
      reads this
      ensures shown <==> Badge() == Some("Concluded")
    {
      assert isActive && timeLeft != "Concluded" ==> timeLeft + " left" != "Concluded" by {
        var t := timeLeft + " left";
        assert t[|t| - 1] == 't' && "Concluded"[8] == 'd';
      }
      timeLeft == "Concluded"
    }
  }
}
