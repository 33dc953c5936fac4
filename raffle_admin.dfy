/** The raffle host's panel of src/components/RaffleAdmin.tsx: two optional
    thresholds select entrants, "Calculate Eligible Entries" records how many
    are selected, and "View Wheel" opens the wheel on exactly that list.

    The text fields hold strings that the panel hands to `parseInt`; the model
    takes the outcome of that step as given: a `Threshold`. */
module RaffleAdmin {
  import opened Collections
  import opened SpinWheel

  /** A threshold field after parsing: the empty string (no constraint), a
      number, or a string `parseInt` reads as NaN (every comparison false). */
  datatype Threshold = Blank | Parsed(k: int) | NotANumber

  /** `!minRanking || user.rank <= parseInt(minRanking)` */
  predicate MeetsRanking(u: User, minRanking: Threshold) {
    match minRanking
    case Blank => true
    case Parsed(k) => u.rank <= k
    case NotANumber => false
  }

  /** `!minVolume || user.volume >= parseInt(minVolume)` */
  predicate MeetsVolume(u: User, minVolume: Threshold) {
    match minVolume
    case Blank => true
    case Parsed(k) => u.volume >= k
    case NotANumber => false
  }

  predicate Selected(u: User, minRanking: Threshold, minVolume: Threshold) {
    MeetsRanking(u, minRanking) && MeetsVolume(u, minVolume) && TakesPart(u)
  }

  /** `filteredEligibleUsers`: the entrants that meet both thresholds and
      have status ELIGIBLE or ENTERED, in their original order, with every
      occurrence of each of them; nothing else. */
  function FilterEligible(users: seq<User>, minRanking: Threshold, minVolume: Threshold): (r: seq<User>)
    ensures IsSubseq(r, users) && |r| <= |users|
    ensures forall i :: 0 <= i < |r| ==> TakesPart(r[i])
    ensures forall i :: 0 <= i < |r| ==> (minRanking.Parsed? ==> r[i].rank <= minRanking.k)
    ensures forall i :: 0 <= i < |r| ==> (minVolume.Parsed? ==> r[i].volume >= minVolume.k)
    ensures minRanking == NotANumber || minVolume == NotANumber ==> r == []
    ensures forall i :: 0 <= i < |r| ==> Selected(r[i], minRanking, minVolume)
    ensures forall i :: 0 <= i < |users| && Selected(users[i], minRanking, minVolume) ==> users[i] in r
    ensures multiset(r) <= multiset(users)
    ensures forall u :: u in users && Selected(u, minRanking, minVolume) ==> multiset(r)[u] == multiset(users)[u]
  {
    Filter(users, u => Selected(u, minRanking, minVolume))
  }

  /** The selection is non-empty exactly when some entrant meets both
      thresholds and the status test. */
  lemma SelectionNonEmpty(users: seq<User>, minRanking: Threshold, minVolume: Threshold)
    ensures FilterEligible(users, minRanking, minVolume) != [] <==>
            exists i :: 0 <= i < |users| && Selected(users[i], minRanking, minVolume)
  {
  }

  /** With both fields empty only the status test applies: the panel's list
      is the wheel's own selection. */
  lemma BlankThresholdsSelectByStatus(users: seq<User>)
    ensures FilterEligible(users, Blank, Blank) == SpinEligible(users)
  {
    FilterAgreeingTests(users, u => Selected(u, Blank, Blank), TakesPart);
  }

  /** The wheel's own status filter leaves the panel's list as it is, so the
      wheel has one segment per entrant the panel counted. */
  lemma WheelTakesFilteredList(users: seq<User>, minRanking: Threshold, minVolume: Threshold)
    ensures SpinEligible(FilterEligible(users, minRanking, minVolume)) == FilterEligible(users, minRanking, minVolume)
  {
    SpinEligibleOfEligible(FilterEligible(users, minRanking, minVolume));
  }

  /** The panel's state: the two threshold fields, the recorded entry count
      (142 until the first calculation) and whether the wheel is shown. The
      entrant list is the component's property and does not change. */
  class Panel {
    const eligibleUsers: seq<User>
    var minRanking: Threshold
    var minVolume: Threshold
    var eligibleEntries: int
    var showWheel: bool

    constructor (eligibleUsers: seq<User>)
      ensures this.eligibleUsers == eligibleUsers
      ensures minRanking == Blank && minVolume == Blank
      ensures eligibleEntries == 142 && !showWheel
    {
      this.eligibleUsers := eligibleUsers;
      minRanking := Blank;
      minVolume := Blank;
      eligibleEntries := 142;
      showWheel := false;
    }

    /** The list the panel shows, counts and hands to the wheel. */
    function Filtered(): seq<User>
      reads this
    {
      FilterEligible(eligibleUsers, minRanking, minVolume)
    }

    /** "View Wheel" is enabled exactly when some entrant meets both
        thresholds and has status ELIGIBLE or ENTERED. */
    function ViewWheelEnabled(): (enabled: bool)
      reads this
      ensures enabled <==> exists i :: 0 <= i < |eligibleUsers| && Selected(eligibleUsers[i], minRanking, minVolume)
    {
      SelectionNonEmpty(eligibleUsers, minRanking, minVolume);
      |Filtered()| != 0
    }

    method SetMinRanking(t: Threshold)
      modifies this`minRanking
      ensures minRanking == t
    {
      minRanking := t;
    }

    method SetMinVolume(t: Threshold)
      modifies this`minVolume
      ensures minVolume == t
    {
      minVolume := t;
    }

    /** `handleCalculateEntries`: record the size of the current selection. */
    method CalculateEntries()
      modifies this`eligibleEntries
      ensures eligibleEntries == |Filtered()|
      ensures eligibleEntries <= |eligibleUsers|
    {
      eligibleEntries := |Filtered()|;
    }

    /** A click on "View Wheel"; a disabled button ignores it. */
    method ViewWheel()
      modifies this`showWheel
      ensures showWheel == (old(showWheel) || ViewWheelEnabled())
    {
      if |Filtered()| != 0 {
        showWheel := true;
      }
    }

    /** The wheel's `onClose`. */
    method CloseWheel()
      modifies this`showWheel
      ensures !showWheel
    {
      showWheel := false;
    }
  }

  /** The leaderboard page mounts the panel without an entrant list, so the
      list defaults to empty: the count becomes 0 and the wheel stays shut. */
  method PanelOnLeaderboardPage(minRanking: Threshold, minVolume: Threshold) returns (panel: Panel)
    ensures panel.eligibleEntries == 0 && !panel.showWheel
  {
    panel := new Panel([]);
    panel.SetMinRanking(minRanking);
    panel.SetMinVolume(minVolume);
    panel.CalculateEntries();
    panel.ViewWheel();
  }
}
