/** The raffle wheel of src/components/SpinWheel.tsx: which entrants take
    part, how a spin turns the wheel, how the winner is read off the turn,
    and the four pieces of component state the handlers update.

    Angles are exact reals. The two `Math.random()` draws of a spin are the
    parameters `r1` and `r2`, each in [0, 1). The 3000 ms `setTimeout` is the
    `PendingDraw` value a spin returns: whoever runs the timer later hands it to
    `Wheel.Complete`. */
module SpinWheel {
  import opened Collections
  import opened Arith

  /** An entrant as the wheel receives it from its host. */
  datatype User = User(name: string, rank: int, volume: int, status: string)

  /** One line of the winner history. */
  datatype Winner = Winner(name: string, rank: int)

  /** The status test of the wheel (and of the raffle panel's filter). */
  predicate TakesPart(u: User) {
    u.status == "ELIGIBLE" || u.status == "ENTERED"
  }

  /** The entrants that get a segment: those with status ELIGIBLE or ENTERED,
      in the order given, with every occurrence of each of them. */
  function SpinEligible(users: seq<User>): (r: seq<User>)
    ensures IsSubseq(r, users) && |r| <= |users|
    ensures forall i :: 0 <= i < |r| ==> TakesPart(r[i])
    ensures forall i :: 0 <= i < |users| && TakesPart(users[i]) ==> users[i] in r
    ensures multiset(r) <= multiset(users)
    ensures forall u :: u in users && TakesPart(u) ==> multiset(r)[u] == multiset(users)[u]
  {
    Filter(users, TakesPart)
  }

  /** Filtering twice is filtering once. */
  lemma SpinEligibleIdempotent(users: seq<User>)
    ensures SpinEligible(SpinEligible(users)) == SpinEligible(users)
  {
    FilterKeepsAll(SpinEligible(users), TakesPart);
  }

  /** A list that already passed the status test is taken as it is. */
  lemma SpinEligibleOfEligible(users: seq<User>)
    requires forall i :: 0 <= i < |users| ==> TakesPart(users[i])
    ensures SpinEligible(users) == users
  {
    FilterKeepsAll(users, TakesPart);
  }

  // ---------------------------------------------------------------------
  // Arithmetic of a spin

  /** Each of the `n` segments spans `360 / n` degrees; together they fill the circle. */
  function SegmentAngle(n: nat): (a: real)
    requires n >= 1
    ensures a > 0.0 && (n as real) * a == 360.0
  {
    360.0 / (n as real)
  }

  /** `3 + Math.random() * 3`: a fractional number of extra turns. */
  function FullRotations(r1: real): (f: real)
    requires 0.0 <= r1 < 1.0
    ensures 3.0 <= f < 6.0
  {
    3.0 + r1 * 3.0
  }

  /** `Math.floor(Math.random() * segments)`: the target segment. */
  function RandomSegment(r2: real, n: nat): (t: nat)
    requires 0.0 <= r2 < 1.0
    ensures n >= 1 ==> t < n
    ensures n == 0 ==> t == 0
  {
    (r2 * (n as real)).Floor
  }

  /** The angle one spin adds to the wheel: whole-and-fractional turns plus
      the target segment's offset. It always exceeds three full turns. */
  function FinalRotation(full: real, seg: nat, n: nat): (r: real)
    requires n >= 1 && seg < n
    requires 3.0 <= full < 6.0
    ensures 1080.0 <= r < 2520.0
  {
    var r := full * 360.0 + (seg as real) * SegmentAngle(n);
    RotationBounds(full, seg, n, SegmentAngle(n), r);
    r
  }

  /** The rotation stays within three to seven turns because the aimed
      segment starts less than one turn into the wheel. */
  lemma RotationBounds(full: real, seg: nat, n: nat, a: real, r: real)
    requires n >= 1 && seg < n && 3.0 <= full < 6.0 && a == SegmentAngle(n)
    requires r == full * 360.0 + (seg as real) * a
    ensures 1080.0 <= r < 2520.0
  {
    StartBelowFullTurn(seg as real, n as real, a);
  }

  /** JavaScript's truncation toward zero. */
  function Trunc(x: real): (t: int)
    ensures x >= 0.0 ==> t as real <= x < t as real + 1.0
    ensures x < 0.0 ==> t as real - 1.0 < x <= t as real
  {
    if x >= 0.0 then x.Floor else -((-x).Floor)
  }

  /** `x % 360` in JavaScript: `x - 360 * trunc(x / 360)`, so the remainder
      has the sign of `x` and lies strictly between -360 and 360. */
  function JsRem360(x: real): (r: real)
    ensures x >= 0.0 ==> 0.0 <= r < 360.0
    ensures x < 0.0 ==> -360.0 < r <= 0.0
    ensures x - r == 360.0 * (Trunc(x / 360.0) as real)
  {
    x - 360.0 * (Trunc(x / 360.0) as real)
  }

  /** JavaScript's `%` on integers, which truncates toward zero. */
  function JsRemInt(a: int, b: int): (r: int)
    requires b > 0
    ensures a >= 0 ==> 0 <= r < b
    ensures a < 0 ==> -b < r <= 0
    ensures a >= 0 ==> r == a % b
    ensures (a - r) % b == 0
  {
    var m := if a >= 0 then a else -a;
    var q, rem := m / b, m % b;
    var r := if a >= 0 then rem else -rem;
    DifferenceIsMultiple(a, b, q, r);
    r
  }

  /** `a - r` is a multiple of `b` whenever `a - r` is `q` times `b` up to sign. */
  lemma DifferenceIsMultiple(a: int, b: int, q: int, r: int)
    requires b > 0
    requires var m := if a >= 0 then a else -a;
             m == q * b + (if a >= 0 then r else -r)
    ensures (a - r) % b == 0
  {
    if a >= 0 {
      DivisionUnique(a - r, b, q, 0);
    } else {
      assert a - r == (-q) * b;
      DivisionUnique(a - r, b, -q, 0);
    }
  }

  /** The index revealed after a spin whose own rotation is `finalRotation`:
      `Math.floor((360 - finalRotation % 360) / segmentAngle) % segments`.
      It is a valid index for every rotation, so the lookup of the winner
      never falls outside the entrant list; with a single entrant it is 0. */
  function WinnerIndex(finalRotation: real, n: nat): (k: int)
    requires n >= 1
    ensures 0 <= k < n
    ensures n == 1 ==> k == 0
  {
    var normalized := JsRem360(finalRotation);
    var q := (360.0 - normalized) / SegmentAngle(n);
    assert q > 0.0;
    JsRemInt(q.Floor, n)
  }

  /** Reference geometry: the wheel's own angle, clockwise from its 0° mark,
      that sits under the fixed pointer once the wheel is turned clockwise by
      `rotation` degrees. */
  function PointerAngle(rotation: real): (a: real)
    ensures 0.0 <= a < 360.0
  {
    var y := -rotation;
    y - 360.0 * ((y / 360.0).Floor as real)
  }

  /** Two angles name the same direction when they differ by whole turns. */
  predicate Coterminal(a: real, b: real) {
    ((a - b) / 360.0).Floor as real == (a - b) / 360.0
  }

  lemma IntegralFloor(k: int)
    ensures (k as real).Floor == k
  {
  }

  /** The pointer angle is the only angle in [0, 360) that points where
      `-rotation` points. */
  lemma PointerAngleIsCoterminal(rotation: real)
    ensures Coterminal(PointerAngle(rotation), -rotation)
  {
    var y := -rotation;
    var j := (y / 360.0).Floor;
    assert PointerAngle(rotation) - y == -360.0 * (j as real);
    assert (PointerAngle(rotation) - y) / 360.0 == (-j) as real;
    IntegralFloor(-j);
  }

  /** `Math.floor(p / a)` counts the whole segments of size `a` that fit in `p`. */
  lemma FloorOfQuotient(p: real, a: real)
    requires a > 0.0
    ensures ((p / a).Floor as real) * a <= p < ((p / a).Floor as real) * a + a
  {
    var q := p / a;
    assert q * a == p;
    Between(p, a, q, q.Floor as real);
  }

  lemma Between(p: real, a: real, q: real, f: real)
    requires a > 0.0 && q * a == p
    requires f <= q < f + 1.0
    ensures f * a <= p < f * a + a
  {
    calc {
      f * a;
    <= { ScaleAtMost(f, q, a); }
      q * a;
    ==
      p;
    }
    calc {
      p;
    ==
      q * a;
    < { ScaleBelow(q, f + 1.0, a); }
      (f + 1.0) * a;
    ==
      f * a + a;
    }
  }

  lemma ScaleAtMost(x: real, y: real, a: real)
    requires x <= y && a > 0.0
    ensures x * a <= y * a
  {
  }

  lemma ScaleBelow(x: real, y: real, a: real)
    requires x < y && a > 0.0
    ensures x * a < y * a
  {
  }

  /** Whole segment counts compare as the angles they span. */
  lemma SegmentsCompare(x: int, y: int, a: real)
    requires a > 0.0
    requires (x as real) * a < (y as real) * a
    ensures x < y
  {
    if y <= x {
      ScaleAtMost(y as real, x as real, a);
    }
  }

  /** What the formula takes as the angle under the pointer,
      `360 - finalRotation % 360`, is the pointer angle up to one whole turn. */
  lemma PointerWithinOneTurn(finalRotation: real)
    ensures var p := 360.0 - JsRem360(finalRotation);
            PointerAngle(finalRotation) == p || PointerAngle(finalRotation) == p - 360.0
  {
    var p := 360.0 - JsRem360(finalRotation);
    var w := -((-finalRotation) / 360.0).Floor - 1 - Trunc(finalRotation / 360.0);
    assert PointerAngle(finalRotation) - p == 360.0 * (w as real);
    assert -2 < w < 1;
  }

  /** How many whole segments fit below an angle of less than two turns. */
  lemma SegmentCountBelow(p: real, a: real, n: nat, f: int)
    requires n >= 1 && a > 0.0 && (n as real) * a == 360.0
    requires (f as real) * a <= p < (f as real) * a + a
    requires 0.0 < p < 720.0
    ensures p < 360.0 ==> 0 <= f < n
    ensures p >= 360.0 ==> n <= f < 2 * n
  {
    calc {
      (0 as real) * a;
    <
      p;
    <
      (f as real) * a + a;
    ==
      ((f + 1) as real) * a;
    }
    SegmentsCompare(0, f + 1, a);
    if p < 360.0 {
      calc {
        (f as real) * a;
      <=
        p;
      <
        (n as real) * a;
      }
      SegmentsCompare(f, n, a);
    } else {
      calc {
        (n as real) * a;
      <=
        p;
      <
        (f as real) * a + a;
      ==
        ((f + 1) as real) * a;
      }
      SegmentsCompare(n, f + 1, a);
      calc {
        (f as real) * a;
      <=
        p;
      <
        720.0;
      ==
        ((2 * n) as real) * a;
      }
      SegmentsCompare(f, 2 * n, a);
    }
  }

  lemma RemainderOfSmall(f: int, n: nat)
    requires n >= 1 && 0 <= f < 2 * n
    ensures f < n ==> JsRemInt(f, n) == f
    ensures f >= n ==> JsRemInt(f, n) == f - n
  {
    if f < n {
      DivisionUnique(f, n, 0, f);
    } else {
      DivisionUnique(f, n, 1, f - n);
    }
  }

  /** Angle `angle` lies in the range of the `k`-th segment of angle `a`. */
  predicate InSegmentOf(k: int, a: real, angle: real) {
    (k as real) * a <= angle < (k as real) * a + a
  }

  /** Angle `angle` of the wheel lies in the range of segment `k`. */
  predicate InSegment(k: int, n: nat, angle: real)
    requires n >= 1
  {
    InSegmentOf(k, SegmentAngle(n), angle)
  }

  /** The revealed index is the segment of the list whose nominal angular
      range `[k * segmentAngle, (k + 1) * segmentAngle)`, starting at the
      segment's `startAngle`, holds the wheel angle that this spin's rotation
      alone brings under the pointer. The wedges the component draws are
      turned a further `startAngle + segmentAngle / 2` and are not this layout. */
  lemma WinnerUnderPointer(finalRotation: real, n: nat)
    requires n >= 1
    ensures InSegment(WinnerIndex(finalRotation, n), n, PointerAngle(finalRotation))
  {
    UnderPointerAt(finalRotation, n, SegmentAngle(n));
  }

  /** `WinnerUnderPointer` with the segment angle held as the value `a`. */
  lemma UnderPointerAt(finalRotation: real, n: nat, a: real)
    requires n >= 1 && a == SegmentAngle(n)
    ensures InSegmentOf(WinnerIndex(finalRotation, n), a, PointerAngle(finalRotation))
  {
    var p := 360.0 - JsRem360(finalRotation);
    var f := (p / a).Floor;
    FloorOfQuotient(p, a);
    PointerWithinOneTurn(finalRotation);
    SegmentCountBelow(p, a, n, f);
    RemainderOfSmall(f, n);
    var k := WinnerIndex(finalRotation, n);
    assert k == JsRemInt(f, n);
    SegmentAfterWrap(k, f, n, a, p, PointerAngle(finalRotation));
  }

  /** The counted segment `f` of the unwrapped angle `p` becomes segment
      `f - n` once `p` passes a full turn, and the pointer angle lies in it. */
  lemma SegmentAfterWrap(k: int, f: int, n: nat, a: real, p: real, pointer: real)
    requires n >= 1 && a > 0.0 && (n as real) * a == 360.0
    requires (f as real) * a <= p < (f as real) * a + a
    requires 0.0 <= pointer < 360.0 && (pointer == p || pointer == p - 360.0)
    requires p < 360.0 ==> k == f
    requires p >= 360.0 ==> n <= f && k == f - n
    ensures InSegmentOf(k, a, pointer)
  {
    if p >= 360.0 {
      SplitProduct(f, n, a);
    }
  }

  /** Any angle in [0, 360) that lies whole turns away from `-rotation` is the pointer angle. */
  lemma PointerAngleUnique(rotation: real, b: real, turns: int)
    requires 0.0 <= b < 360.0
    requires b + rotation == 360.0 * (turns as real)
    ensures PointerAngle(rotation) == b
  {
    var j := ((-rotation) / 360.0).Floor;
    assert PointerAngle(rotation) + rotation == -360.0 * (j as real);
    assert PointerAngle(rotation) - b == 360.0 * ((-j - turns) as real);
  }

  /** A segment index is determined by any angle inside its range. */
  lemma SegmentUnique(k: int, m: int, a: real)
    requires a > 0.0
    requires InSegmentOf(k, a, (m as real) * a)
    ensures k == m
  {
    assert (k as real) * a + a == ((k + 1) as real) * a;
    SegmentsCompare(m, k + 1, a);
    if k > m {
      ScaleBelow(m as real, k as real, a);
    }
  }

  /** A spin that leaves the start of segment `m` exactly under the pointer reveals `m`. */
  lemma AlignedSpinIndex(finalRotation: real, n: nat, m: nat, turns: int)
    requires n >= 1 && m < n
    requires (m as real) * SegmentAngle(n) + finalRotation == 360.0 * (turns as real)
    ensures WinnerIndex(finalRotation, n) == m
  {
    AlignedAt(finalRotation, n, m, turns, SegmentAngle(n));
  }

  /** `AlignedSpinIndex` with the segment angle held as the value `a`. */
  lemma AlignedAt(finalRotation: real, n: nat, m: nat, turns: int, a: real)
    requires n >= 1 && m < n && a == SegmentAngle(n)
    requires (m as real) * a + finalRotation == 360.0 * (turns as real)
    ensures WinnerIndex(finalRotation, n) == m
  {
    PointerAtSegmentStart(finalRotation, n, m, turns, a);
    UnderPointerAt(finalRotation, n, a);
    SegmentUnique(WinnerIndex(finalRotation, n), m, a);
  }

  /** Such a spin leaves the wheel angle `m * a` under the pointer. */
  lemma PointerAtSegmentStart(finalRotation: real, n: nat, m: nat, turns: int, a: real)
    requires n >= 1 && m < n && a == SegmentAngle(n)
    requires (m as real) * a + finalRotation == 360.0 * (turns as real)
    ensures PointerAngle(finalRotation) == (m as real) * a
  {
    StartBelowFullTurn(m as real, n as real, a);
    PointerAngleUnique(finalRotation, (m as real) * a, turns);
  }

  /** Each of `n` segments of angle `a` starts within the first turn. */
  lemma StartBelowFullTurn(m: real, n: real, a: real)
    requires 0.0 <= m < n && a > 0.0 && n * a == 360.0
    ensures 0.0 <= m * a < 360.0
  {
    ScaleAtMost(0.0, m, a);
    ScaleBelow(m, n, a);
    BelowEqual(m * a, n * a, 360.0);
  }

  /** Linear chaining with the products held as plain values. */
  lemma BelowEqual(p: real, q: real, c: real)
    requires p < q && q == c
    ensures p < c
  {
  }

  /** Were the extra turns a whole number, a spin aimed at segment `t` would
      reveal segment `(n - t) % n`, not `t`: the formula inverts the direction
      of the turn. */
  lemma WholeTurnsIndex(turns: nat, t: nat, n: nat)
    requires n >= 1 && t < n
    requires 3 <= turns < 6
    ensures WinnerIndex(FinalRotation(turns as real, t, n), n) == (n - t) % n
  {
    WholeTurnsAt(FinalRotation(turns as real, t, n), turns, t, n, SegmentAngle(n));
  }

  /** `WholeTurnsIndex` with the rotation and the segment angle held as values. */
  lemma WholeTurnsAt(finalRotation: real, turns: nat, t: nat, n: nat, a: real)
    requires n >= 1 && t < n && a == SegmentAngle(n)
    requires finalRotation == (turns as real) * 360.0 + (t as real) * a
    ensures WinnerIndex(finalRotation, n) == (n - t) % n
  {
    if t == 0 {
      AimedAtFirst(finalRotation, turns, n, a);
      DivisionUnique(n - t, n, 1, 0);
    } else {
      AimedPastFirst(finalRotation, turns, t, n, a);
      DivisionUnique(n - t, n, 0, n - t);
    }
  }

  lemma AimedAtFirst(finalRotation: real, turns: nat, n: nat, a: real)
    requires n >= 1 && a == SegmentAngle(n)
    requires finalRotation == (turns as real) * 360.0 + (0 as real) * a
    ensures WinnerIndex(finalRotation, n) == 0
  {
    AlignedAt(finalRotation, n, 0, turns, a);
  }

  lemma AimedPastFirst(finalRotation: real, turns: nat, t: nat, n: nat, a: real)
    requires 0 < t < n && a == SegmentAngle(n)
    requires finalRotation == (turns as real) * 360.0 + (t as real) * a
    ensures WinnerIndex(finalRotation, n) == n - t
  {
    SplitProduct(n, t, a);
    OneMoreTurn(((n - t) as real) * a, (n as real) * a, (t as real) * a, finalRotation, turns);
    AlignedAt(finalRotation, n, n - t, turns + 1, a);
  }

  lemma SplitProduct(x: nat, y: nat, a: real)
    requires y <= x
    ensures ((x - y) as real) * a == (x as real) * a - (y as real) * a
  {
  }

  /** Linear bookkeeping of the turn count, with the products held as plain values. */
  lemma OneMoreTurn(rest: real, whole: real, offset: real, finalRotation: real, turns: int)
    requires rest == whole - offset && whole == 360.0
    requires finalRotation == (turns as real) * 360.0 + offset
    ensures rest + finalRotation == 360.0 * ((turns + 1) as real)
  {
  }

  /** Three entrants, three whole extra turns, target segment 2: the wheel
      reveals index 1, the second entrant. */
  lemma ThreeEntrantsAimedAtLast()
    ensures FinalRotation(3.0, 2, 3) == 1320.0
    ensures WinnerIndex(FinalRotation(3.0, 2, 3), 3) == 1
  {
    assert SegmentAngle(3) == 120.0;
    WholeTurnsIndex(3, 2, 3);
  }

  /** The same aim with half a turn more (`r1 = 0.5`, so 4.5 turns) reveals
      index 2, the last entrant: the index depends on the turns drawn. */
  lemma ThreeEntrantsHalfTurnMore()
    ensures FullRotations(0.5) == 4.5
    ensures FinalRotation(4.5, 2, 3) == 1860.0
    ensures WinnerIndex(FinalRotation(4.5, 2, 3), 3) == 2
  {
    assert SegmentAngle(3) == 120.0;
    assert JsRem360(1860.0) == 60.0;
  }

  /** The index comes from this spin's own rotation, not from the wheel's
      accumulated orientation: after two spins of 3.5 turns each on a
      two-entrant wheel, index 1 is revealed although the accumulated
      rotation brings the nominal range of segment 0 under the pointer. */
  lemma IndexIgnoresEarlierSpins()
    ensures FinalRotation(3.5, 0, 2) == 1260.0
    ensures WinnerIndex(1260.0, 2) == 1
    ensures 0.0 <= PointerAngle(1260.0 + 1260.0) < SegmentAngle(2)
  {
    assert JsRem360(1260.0) == 180.0;
    assert PointerAngle(2520.0) == 0.0;
  }

  // ---------------------------------------------------------------------
  // Component state

  /** What the `setTimeout` callback of a spin captured: this spin's own
      rotation and the entrant list of the render that started it. */
  datatype PendingDraw = PendingDraw(finalRotation: real, participants: seq<User>)

  /** The winner a reveal announces. */
  function DrawnWinner(draw: PendingDraw): (w: User)
    requires |draw.participants| >= 1
    ensures w in draw.participants
    ensures |draw.participants| == 1 ==> w == draw.participants[0]
  {
    draw.participants[WinnerIndex(draw.finalRotation, |draw.participants|)]
  }

  /** The wheel's state: `isSpinning`, `winners`, `selectedWinner` and
      `rotation` (degrees, accumulated over spins). */
  class Wheel {
    var isSpinning: bool
    var winners: seq<Winner>
    var selectedWinner: Option<string>
    var rotation: real

    /** The wheel never turns backwards, nothing is announced while it
        spins, and an announced winner is the last line of the history. */
    ghost predicate Valid()
      reads this
    {
      && rotation >= 0.0
      && (isSpinning ==> selectedWinner == None)
      && (selectedWinner.Some? ==> |winners| > 0 && winners[|winners| - 1].name == selectedWinner.value)
    }

    constructor ()
      ensures Valid()
      ensures !isSpinning && winners == [] && selectedWinner == None && rotation == 0.0
    {
      isSpinning := false;
      winners := [];
      selectedWinner := None;
      rotation := 0.0;
    }

    /** `spinWheel`, up to the scheduling of the draw. `r1` and `r2` are the
        two `Math.random()` draws. Ignored while a spin is in progress or when
        no entrant takes part; otherwise the wheel turns by this spin's
        rotation and the pending reveal is returned. */
    method Spin(users: seq<User>, r1: real, r2: real) returns (pending: Option<PendingDraw>)
      requires Valid()
      requires 0.0 <= r1 < 1.0 && 0.0 <= r2 < 1.0
      modifies this
      ensures Valid()
      ensures old(isSpinning) || |SpinEligible(users)| == 0 ==>
                pending == None
                && isSpinning == old(isSpinning) && winners == old(winners)
                && selectedWinner == old(selectedWinner) && rotation == old(rotation)
      ensures !old(isSpinning) && |SpinEligible(users)| > 0 ==>
                (var eligible := SpinEligible(users);
                 var n := |eligible|;
                 pending == Some(PendingDraw(FinalRotation(FullRotations(r1), RandomSegment(r2, n), n), eligible)))
      ensures !old(isSpinning) && |SpinEligible(users)| > 0 ==>
                isSpinning && selectedWinner == None && winners == old(winners)
                && pending.Some? && rotation == old(rotation) + pending.value.finalRotation
                && rotation >= old(rotation) + 1080.0
      ensures pending.Some? ==> |pending.value.participants| >= 1
    {
      var eligible := SpinEligible(users);
      if isSpinning || |eligible| == 0 {
        return None;
      }
      isSpinning := true;
      selectedWinner := None;
      var n := |eligible|;
      var fullRotations := FullRotations(r1);
      var randomSegment := RandomSegment(r2, n);
      var finalRotation := FinalRotation(fullRotations, randomSegment, n);
      rotation := rotation + finalRotation;
      pending := Some(PendingDraw(finalRotation, eligible));
    }

    /** The `setTimeout` callback: announce the entrant under the index the
        spin's rotation gives, append it to the history, stop spinning. The
        callback is never cancelled, so it runs even if the wheel was closed
        in the meantime. */
    method Complete(draw: PendingDraw)
      requires Valid()
      requires |draw.participants| >= 1
      modifies this
      ensures Valid()
      ensures winners == old(winners) + [Winner(DrawnWinner(draw).name, DrawnWinner(draw).rank)]
      ensures selectedWinner == Some(DrawnWinner(draw).name)
      ensures !isSpinning && rotation == old(rotation)
    {
      var winner := draw.participants[WinnerIndex(draw.finalRotation, |draw.participants|)];
      selectedWinner := Some(winner.name);
      winners := winners + [Winner(winner.name, winner.rank)];
      isSpinning := false;
    }

    /** `resetWheel` ("Spin Again"): withdraw the announcement and the spinning flag. */
    method Reset()
      requires Valid()
      modifies this
      ensures Valid()
      ensures selectedWinner == None && !isSpinning
      ensures winners == old(winners) && rotation == old(rotation)
    {
      selectedWinner := None;
      isSpinning := false;
    }

    /** `clearWinners` ("Clear All"): empty the history and withdraw the announcement. */
    method ClearWinners()
      requires Valid()
      modifies this
      ensures Valid()
      ensures winners == [] && selectedWinner == None
      ensures isSpinning == old(isSpinning) && rotation == old(rotation)
    {
      winners := [];
      selectedWinner := None;
    }

    /** The effect that runs whenever `isOpen` changes: on close the wheel
        returns to its initial orientation; the history stays. */
    method OpenChanged(isOpen: bool)
      requires Valid()
      modifies this
      ensures Valid()
      ensures winners == old(winners)
      ensures !isOpen ==> rotation == 0.0 && selectedWinner == None && !isSpinning
      ensures isOpen ==> rotation == old(rotation) && selectedWinner == old(selectedWinner)
                         && isSpinning == old(isSpinning)
    {
      if !isOpen {
        rotation := 0.0;
        selectedWinner := None;
        isSpinning := false;
      }
    }
  }

  /** Three ENTERED entrants A, B and C, ranked 1 to 3. */
  function ThreeEntrants(): seq<User> {
    [User("A", 1, 0, "ENTERED"), User("B", 2, 0, "ENTERED"), User("C", 3, 0, "ENTERED")]
  }

  /** All three take part, and a spin forced to target segment 2 with no extra
      fraction of a turn reveals B. */
  lemma ThreeEntrantsSpin()
    ensures SpinEligible(ThreeEntrants()) == ThreeEntrants()
    ensures RandomSegment(0.7, 3) == 2 && FullRotations(0.0) == 3.0
    ensures DrawnWinner(PendingDraw(FinalRotation(3.0, 2, 3), ThreeEntrants())) == User("B", 2, 0, "ENTERED")
  {
    SpinEligibleOfEligible(ThreeEntrants());
    ThreeEntrantsAimedAtLast();
  }

  /** A draw over three ENTERED entrants in which both random draws are
      forced: no extra fraction of a turn, target segment 2. A second click
      while the wheel spins changes nothing, and the reveal appends exactly
      one winner, the second entrant. */
  method ThreeEntrantDraw() returns (wheel: Wheel)
    ensures wheel.winners == [Winner("B", 2)]
    ensures wheel.selectedWinner == Some("B")
    ensures !wheel.isSpinning && wheel.rotation == 1320.0
  {
    var users := ThreeEntrants();
    ThreeEntrantsSpin();
    ThreeEntrantsAimedAtLast();
    wheel := new Wheel();
    var pending := wheel.Spin(users, 0.0, 0.7);
    var ignored := wheel.Spin(users, 0.5, 0.5);
    assert ignored == None;
    wheel.Complete(pending.value);
  }
}
