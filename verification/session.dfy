/** The press / charge / release / finalize cycle of the page, as pure
    transitions over one explicit state record. Timers become one call per
    tick, and the random draws and clock reads become parameters. */
module Session {

  import opened Options
  import opened Leaderboard
  import Address

  /** The connection banner (`connectionStatus`). */
  datatype Status = Disconnected | Connecting | Sending

  /** The component's state cells that the cycle reads and writes. */
  datatype State = State(
    isCharging: bool,
    chargeLevel: int,
    pumpPower: int,
    totalFarts: int,
    leaderboard: seq<Entry>,
    status: Status)

  /** The snapshot saved under the storage key. A field is `None` when the
      parsed object lacks it or holds a falsy value there; a stored `Some(0)`
      loads the same as `None`, since `0 || 0` is `0`. */
  datatype Stored = Stored(pumpPower: Option<int>, totalFarts: Option<int>, leaderboard: Option<seq<Entry>>)

  const MaxCharge: int := 1000
  const ChargeStep: int := 5
  /** `Math.floor(Math.random() * 20)` ranges over 0..19. */
  const RandomSpan: int := 20

  /** A draw of `Math.floor(Math.random() * 20)`. */
  type RandomIndex = k: int | 0 <= k < RandomSpan

  /** The state before anything is loaded: every cell at its `useState` default. */
  const Initial: State := State(false, 0, 0, 0, [], Disconnected)

  /** Charge stays within bounds and is zero whenever the button is not held. */
  predicate ChargeInvariant(s: State) {
    0 <= s.chargeLevel <= MaxCharge && (!s.isCharging ==> s.chargeLevel == 0)
  }

  /** The cells that only finalize and load write. */
  predicate SameRecords(s: State, t: State) {
    s.pumpPower == t.pumpPower && s.totalFarts == t.totalFarts && s.leaderboard == t.leaderboard
  }

  // ---------------------------------------------------------------------
  // Charge

  /** The charge interval's update `prev => Math.min(prev + 5, 1000)`. */
  function ChargeTick(prev: int): int {
    Min(prev + ChargeStep, MaxCharge)
  }

  /** `handleMouseDown`: start (or keep) charging; the level is left as it is. */
  function Press(s: State): (r: State)
    ensures r.isCharging && r.status == Connecting
    ensures r.chargeLevel == s.chargeLevel && SameRecords(s, r)
    ensures s.isCharging && s.status == Connecting ==> r == s
  {
    s.(isCharging := true, status := Connecting)
  }

  /** One firing of the 50 ms charge interval, which only runs while charging. */
  function Tick(s: State): (r: State)
    ensures !s.isCharging ==> r == s
    ensures ChargeInvariant(s) ==> ChargeInvariant(r)
    ensures ChargeInvariant(s) && s.isCharging ==> s.chargeLevel <= r.chargeLevel
    ensures ChargeInvariant(s) && s.isCharging && s.chargeLevel < MaxCharge ==> s.chargeLevel < r.chargeLevel
    ensures r.isCharging == s.isCharging && r.status == s.status && SameRecords(s, r)
  {
    if s.isCharging then s.(chargeLevel := ChargeTick(s.chargeLevel)) else s
  }

  /** `n` firings of the charge interval. */
  function Ticks(s: State, n: nat): State {
    if n == 0 then s else Tick(Ticks(s, n - 1))
  }

  /** Holding the button for `n` ticks from an empty meter shows `min(5n, 1000)`. */
  lemma {:induction false} TicksFromEmpty(s: State, n: nat)
    requires s.isCharging && s.chargeLevel == 0
    ensures Ticks(s, n).isCharging
    ensures Ticks(s, n).chargeLevel == Min(ChargeStep * n, MaxCharge)
  {
    if n > 0 {
      TicksFromEmpty(s, n - 1);
    }
  }

  // ---------------------------------------------------------------------
  // Release

  /** `fartPower`: the charge in tens, plus a random 1..20. */
  function Reward(level: int, k: RandomIndex): (r: int)
    ensures level / 10 + 1 <= r <= level / 10 + RandomSpan
    ensures 0 <= level <= MaxCharge ==> 1 <= r <= MaxCharge / 10 + RandomSpan
  {
    level / 10 + k + 1
  }

  /** Every value in the window is reached by exactly one random draw. */
  lemma RewardWindow(level: int, r: int)
    requires level / 10 + 1 <= r <= level / 10 + RandomSpan
    ensures exists k: RandomIndex :: Reward(level, k) == r
    ensures forall k1: RandomIndex, k2: RandomIndex :: Reward(level, k1) == r && Reward(level, k2) == r ==> k1 == k2
  {
    var k: RandomIndex := r - level / 10 - 1;
    assert Reward(level, k) == r;
  }

  /** What a release leaves behind: the next state, and the reward whose
      upload it starts, if any. */
  datatype Released = Released(next: State, reward: Option<int>)

  /** `handleMouseUp`, up to the start of the upload. */
  function Release(s: State, k: RandomIndex): (r: Released)
    ensures !s.isCharging ==> r.next == s && r.reward.None?
    ensures s.isCharging ==> (r.reward.Some? && s.chargeLevel / 10 + 1 <= r.reward.value <= s.chargeLevel / 10 + RandomSpan)
    ensures s.isCharging ==> !r.next.isCharging && r.next.chargeLevel == 0 && r.next.status == Sending
    ensures SameRecords(s, r.next)
    ensures ChargeInvariant(s) ==> ChargeInvariant(r.next)
  {
    if !s.isCharging then Released(s, None)
    else Released(s.(isCharging := false, chargeLevel := 0, status := Sending), Some(Reward(s.chargeLevel, k)))
  }

  // ---------------------------------------------------------------------
  // Finalize

  /** The entry `executeFart` builds. The source reads the clock twice, once
      for the id and once for the timestamp. */
  function NewEntry(power: int, idTime: int, stampTime: int, digits: seq<Address.Nibble>): Entry
    requires |digits| == Address.DigitCount
  {
    Entry(idTime, Address.Render(digits), power, stampTime)
  }

  /** `executeFart`: add the power, count one more, and record the entry. */
  function Finalize(s: State, power: int, idTime: int, stampTime: int, digits: seq<Address.Nibble>): (r: State)
    requires |digits| == Address.DigitCount
    ensures r.pumpPower == s.pumpPower + power && r.totalFarts == s.totalFarts + 1
    ensures Sorted(r.leaderboard) && |r.leaderboard| == Min(|s.leaderboard| + 1, Capacity)
    ensures multiset(r.leaderboard) <= multiset(s.leaderboard + [NewEntry(power, idTime, stampTime, digits)])
    ensures r.isCharging == s.isCharging && r.chargeLevel == s.chargeLevel && r.status == s.status
  {
    var e := NewEntry(power, idTime, stampTime, digits);
    RecordShape(s.leaderboard, e);
    s.(pumpPower := s.pumpPower + power, totalFarts := s.totalFarts + 1, leaderboard := Record(s.leaderboard, e))
  }

  /** The end of the upload: finalize against the state as it is when the
      upload ends, then the banner goes back to disconnected. */
  function CompleteUpload(s: State, power: int, idTime: int, stampTime: int, digits: seq<Address.Nibble>): (r: State)
    requires |digits| == Address.DigitCount
    ensures r.pumpPower == s.pumpPower + power && r.totalFarts == s.totalFarts + 1
    ensures r.leaderboard == Record(s.leaderboard, NewEntry(power, idTime, stampTime, digits))
    ensures r.status == Disconnected && r.isCharging == s.isCharging && r.chargeLevel == s.chargeLevel
    ensures ChargeInvariant(s) ==> ChargeInvariant(r)
  {
    Finalize(s, power, idTime, stampTime, digits).(status := Disconnected)
  }

  /** One finalize's worth of outside input: the power and the clock and
      random draws it consumes. */
  datatype Shot = Shot(power: int, idTime: int, stampTime: int, digits: seq<Address.Nibble>)

  predicate WellFormedShot(shot: Shot) {
    |shot.digits| == Address.DigitCount
  }

  function ShotEntry(shot: Shot): Entry
    requires WellFormedShot(shot)
  {
    NewEntry(shot.power, shot.idTime, shot.stampTime, shot.digits)
  }

  /** Finalizing the shots in order. */
  function FinalizeAll(s: State, shots: seq<Shot>): State
    requires forall i :: 0 <= i < |shots| ==> WellFormedShot(shots[i])
    decreases |shots|
  {
    if |shots| == 0 then s
    else
      var h := shots[0];
      assert WellFormedShot(h);
      FinalizeAll(Finalize(s, h.power, h.idTime, h.stampTime, h.digits), shots[1..])
  }

  function SumPowers(shots: seq<Shot>): int {
    if |shots| == 0 then 0 else shots[0].power + SumPowers(shots[1..])
  }

  function Entries(shots: seq<Shot>): (es: seq<Entry>)
    requires forall i :: 0 <= i < |shots| ==> WellFormedShot(shots[i])
    ensures |es| == |shots|
  {
    if |shots| == 0 then [] else [ShotEntry(shots[0])] + Entries(shots[1..])
  }

  /** Over `n` finalizes the count grows by `n` and the power by the sum of
      the powers; the board is the leaderboard update applied to each entry
      in turn; nothing else changes. */
  lemma {:induction false} FinalizeAllAccounting(s: State, shots: seq<Shot>)
    requires forall i :: 0 <= i < |shots| ==> WellFormedShot(shots[i])
    ensures FinalizeAll(s, shots).totalFarts == s.totalFarts + |shots|
    ensures FinalizeAll(s, shots).pumpPower == s.pumpPower + SumPowers(shots)
    ensures FinalizeAll(s, shots).leaderboard == RecordAll(s.leaderboard, Entries(shots))
    ensures FinalizeAll(s, shots).isCharging == s.isCharging
    ensures FinalizeAll(s, shots).chargeLevel == s.chargeLevel
    decreases |shots|
  {
    if |shots| > 0 {
      var h := shots[0];
      var s' := Finalize(s, h.power, h.idTime, h.stampTime, h.digits);
      FinalizeAllAccounting(s', shots[1..]);
      assert Entries(shots)[1..] == Entries(shots[1..]);
    }
  }

  /** From an empty board, the board holds the ten highest-power entries
      ever finalized, ties in the order they were finalized. */
  lemma FinalizeAllFromEmpty(s: State, shots: seq<Shot>)
    requires s.leaderboard == []
    requires forall i :: 0 <= i < |shots| ==> WellFormedShot(shots[i])
    ensures FinalizeAll(s, shots).totalFarts == s.totalFarts + |shots|
    ensures FinalizeAll(s, shots).pumpPower == s.pumpPower + SumPowers(shots)
    ensures FinalizeAll(s, shots).leaderboard == Take(Sort(Entries(shots)), Capacity)
  {
    FinalizeAllAccounting(s, shots);
    RecordAllFromEmpty(Entries(shots));
  }

  /** From any starting board, including one loaded from storage, at least
      one finalize leaves the ten highest-power entries of the old board and
      the new entries, sorted, ties in board-then-arrival order. */
  lemma FinalizeAllFromAnyBoard(s: State, shots: seq<Shot>)
    requires |shots| > 0
    requires forall i :: 0 <= i < |shots| ==> WellFormedShot(shots[i])
    ensures FinalizeAll(s, shots).leaderboard == Take(Sort(s.leaderboard + Entries(shots)), Capacity)
    ensures Sorted(FinalizeAll(s, shots).leaderboard)
    ensures |FinalizeAll(s, shots).leaderboard| == Min(|s.leaderboard| + |shots|, Capacity)
  {
    FinalizeAllAccounting(s, shots);
    RecordAllAnyBoard(s.leaderboard, Entries(shots));
  }

  // ---------------------------------------------------------------------
  // Persistence

  /** `saveStats`: the snapshot written after every finalize. */
  function Save(s: State): (snap: Stored)
    ensures snap.pumpPower.Some? && snap.totalFarts.Some? && snap.leaderboard.Some?
  {
    Stored(Some(s.pumpPower), Some(s.totalFarts), Some(s.leaderboard))
  }

  /** `x || 0` and `x || []`: an absent or falsy field reads as zero or empty. */
  function OrZero(x: Option<int>): int {
    match x
    case None => 0
    case Some(v) => v
  }

  function OrEmpty(x: Option<seq<Entry>>): seq<Entry> {
    match x
    case None => []
    case Some(v) => v
  }

  /** The mount effect: `saved` is None when the key is absent (or holds the
      empty string); otherwise every field is taken or defaulted. */
  function Load(s: State, saved: Option<Stored>): (r: State)
    ensures saved.None? ==> r == s
    ensures saved.Some? && saved.value.pumpPower.None? ==> r.pumpPower == 0
    ensures saved.Some? && saved.value.totalFarts.None? ==> r.totalFarts == 0
    ensures saved.Some? && saved.value.leaderboard.None? ==> r.leaderboard == []
    ensures saved.Some? && saved.value.pumpPower.Some? ==> r.pumpPower == saved.value.pumpPower.value
    ensures saved.Some? && saved.value.totalFarts.Some? ==> r.totalFarts == saved.value.totalFarts.value
    ensures saved.Some? && saved.value.leaderboard.Some? ==> r.leaderboard == saved.value.leaderboard.value
    ensures r.isCharging == s.isCharging && r.chargeLevel == s.chargeLevel && r.status == s.status
  {
    match saved
    case None => s
    case Some(st) =>
      s.(pumpPower := OrZero(st.pumpPower), totalFarts := OrZero(st.totalFarts), leaderboard := OrEmpty(st.leaderboard))
  }

  /** Saving and loading on a fresh page restores the counters and board. */
  lemma SaveLoadRoundTrip(s: State, page: State)
    ensures SameRecords(Load(page, Some(Save(s))), s)
    ensures Load(Initial, Some(Save(s))) == Initial.(pumpPower := s.pumpPower, totalFarts := s.totalFarts, leaderboard := s.leaderboard)
  {
  }

  // ---------------------------------------------------------------------
  // The whole cycle

  /** Press, hold for `ticks` ticks, release, and let the upload finish. */
  function Cycle(s: State, ticks: nat, k: RandomIndex, idTime: int, stampTime: int, digits: seq<Address.Nibble>): State
    requires |digits| == Address.DigitCount
  {
    var released := Release(Ticks(Press(s), ticks), k);
    match released.reward
    case None => released.next
    case Some(p) => CompleteUpload(released.next, p, idTime, stampTime, digits)
  }

  /** A full cycle from rest adds one entry whose reward is fixed by how long
      the button was held and the random draw, and returns to rest. */
  lemma CycleFromRest(s: State, ticks: nat, k: RandomIndex, idTime: int, stampTime: int, digits: seq<Address.Nibble>)
    requires |digits| == Address.DigitCount
    requires ChargeInvariant(s) && !s.isCharging
    ensures var r := Cycle(s, ticks, k, idTime, stampTime, digits);
      var p := Reward(Min(ChargeStep * ticks, MaxCharge), k);
      && r.totalFarts == s.totalFarts + 1
      && r.pumpPower == s.pumpPower + p
      && r.leaderboard == Record(s.leaderboard, NewEntry(p, idTime, stampTime, digits))
      && !r.isCharging && r.chargeLevel == 0 && r.status == Disconnected
  {
    var held := Ticks(Press(s), ticks);
    TicksFromEmpty(Press(s), ticks);
    var released := Release(held, k);
    assert released.reward == Some(Reward(held.chargeLevel, k));
    assert SameRecords(held, s) by {
      TicksKeepRecords(Press(s), ticks);
    }
  }

  lemma {:induction false} TicksKeepRecords(s: State, n: nat)
    ensures SameRecords(Ticks(s, n), s)
  {
    if n > 0 {
      TicksKeepRecords(s, n - 1);
    }
  }

  // ---------------------------------------------------------------------
  // Scenarios

  function Powers(board: seq<Entry>): seq<int> {
    if |board| == 0 then [] else [board[0].power] + Powers(board[1..])
  }

  /** Rewards 5, 50, 1, 99 onto an empty board: board 99, 50, 5, 1; four
      more finalizes; 155 more power. */
  lemma ScenarioFour(s: State, shots: seq<Shot>)
    requires s.leaderboard == []
    requires |shots| == 4 && forall i :: 0 <= i < 4 ==> WellFormedShot(shots[i])
    requires shots[0].power == 5 && shots[1].power == 50 && shots[2].power == 1 && shots[3].power == 99
    ensures var r := FinalizeAll(s, shots);
      Powers(r.leaderboard) == [99, 50, 5, 1] && r.totalFarts == s.totalFarts + 4 && r.pumpPower == s.pumpPower + 155
  {
    var es := Entries(shots);
    EntriesAt(shots, 0);
    EntriesAt(shots, 1);
    EntriesAt(shots, 2);
    EntriesAt(shots, 3);
    assert RecordAll([], es) == [es[3], es[1], es[0], es[2]] by {
      assert es == [es[0], es[1], es[2], es[3]];
      BoardOfFour(es[0], es[1], es[2], es[3]);
    }
    FinalizeAllAccounting(s, shots);
    SumOfFour(shots);
    PowersOfFour(es[3], es[1], es[0], es[2]);
  }

  /** The sum of four shots' powers, written out. */
  lemma SumOfFour(shots: seq<Shot>)
    requires |shots| == 4
    ensures SumPowers(shots) == shots[0].power + shots[1].power + shots[2].power + shots[3].power
  {
    var t1, t2, t3 := shots[1..], shots[2..], shots[3..];
    assert t1[1..] == t2 && t1[0] == shots[1];
    assert t2[1..] == t3 && t2[0] == shots[2];
    assert t3[1..] == [] && t3[0] == shots[3];
    assert SumPowers(t3) == shots[3].power;
    assert SumPowers(t2) == shots[2].power + shots[3].power;
  }

  /** Entry `i` comes from shot `i`. */
  lemma {:induction false} EntriesAt(shots: seq<Shot>, i: nat)
    requires forall j :: 0 <= j < |shots| ==> WellFormedShot(shots[j])
    requires i < |shots|
    ensures Entries(shots)[i] == ShotEntry(shots[i])
    decreases i
  {
    if i > 0 {
      EntriesAt(shots[1..], i - 1);
    }
  }

  lemma PowersOfFour(a: Entry, b: Entry, c: Entry, d: Entry)
    ensures Powers([a, b, c, d]) == [a.power, b.power, c.power, d.power]
  {
    var s := [a, b, c, d];
    assert s[1..] == [b, c, d] && [b, c, d][1..] == [c, d] && [c, d][1..] == [d] && [d][1..] == [];
    assert Powers([d]) == [d.power];
    assert Powers([c, d]) == [c.power, d.power];
    assert Powers([b, c, d]) == [b.power, c.power, d.power];
  }
}
