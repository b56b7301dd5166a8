/** The upload's completion as the page actually runs it. The interval that
    ends an upload was created by the release handler, so the finalize it
    calls reads the counters and the board of the render in which the button
    was released, not the ones current when the upload ends. With one upload
    at a time the two agree; when a second release starts an upload before the
    first one ends, the later completion overwrites the earlier one. */
module StaleClosure {

  import opened Leaderboard
  import opened Session
  import Address

  /** The completion as written: `seen` is the state captured at release,
      `current` the state when the upload ends. Counters and board are
      computed from `seen`; the other cells keep their current values. */
  function CompleteUploadAsWritten(current: State, seen: State, power: int, idTime: int, stampTime: int,
                                   digits: seq<Address.Nibble>): (r: State)
    requires |digits| == Address.DigitCount
    ensures r.pumpPower == seen.pumpPower + power && r.totalFarts == seen.totalFarts + 1
    ensures r.leaderboard == Record(seen.leaderboard, NewEntry(power, idTime, stampTime, digits))
    ensures r.status == Disconnected && r.isCharging == current.isCharging && r.chargeLevel == current.chargeLevel
  {
    var f := Finalize(seen, power, idTime, stampTime, digits);
    current.(pumpPower := f.pumpPower, totalFarts := f.totalFarts, leaderboard := f.leaderboard, status := Disconnected)
  }

  /** With nothing finalized between release and completion, the stale read
      is harmless: the completion is the intended one. */
  lemma AsWrittenAgreesWithoutOverlap(current: State, seen: State, power: int, idTime: int, stampTime: int,
                                      digits: seq<Address.Nibble>)
    requires |digits| == Address.DigitCount
    requires SameRecords(current, seen)
    ensures CompleteUploadAsWritten(current, seen, power, idTime, stampTime, digits)
         == CompleteUpload(current, power, idTime, stampTime, digits)
  {
  }

  /** Once another upload has finalized since the release, the as-written
      completion does not count its own upload: the count it writes is no
      larger than the one already on screen. */
  lemma AsWrittenLosesCount(current: State, seen: State, power: int, idTime: int, stampTime: int,
                            digits: seq<Address.Nibble>)
    requires |digits| == Address.DigitCount
    requires current.totalFarts > seen.totalFarts
    ensures CompleteUploadAsWritten(current, seen, power, idTime, stampTime, digits).totalFarts <= current.totalFarts
  {
  }

  /** Two overlapping uploads from state `s`: the second release happens
      before the first upload ends, so both closures saw `s`. As written the
      count ends one higher than `s`, and the second completion's power
      replaces the first's. */
  lemma OverlappingUploadsAsWritten(s: State, a: Shot, b: Shot)
    requires WellFormedShot(a) && WellFormedShot(b)
    ensures var first := CompleteUploadAsWritten(s, s, a.power, a.idTime, a.stampTime, a.digits);
      var second := CompleteUploadAsWritten(first, s, b.power, b.idTime, b.stampTime, b.digits);
      && second.totalFarts == s.totalFarts + 1
      && second.pumpPower == s.pumpPower + b.power
      && second.leaderboard == Record(s.leaderboard, ShotEntry(b))
  {
  }

  /** The same two uploads completed against the current state: both count,
      both powers add up, and the board records both entries. */
  lemma OverlappingUploadsCorrected(s: State, a: Shot, b: Shot)
    requires WellFormedShot(a) && WellFormedShot(b)
    ensures var first := CompleteUpload(s, a.power, a.idTime, a.stampTime, a.digits);
      var second := CompleteUpload(first, b.power, b.idTime, b.stampTime, b.digits);
      && second.totalFarts == s.totalFarts + 2
      && second.pumpPower == s.pumpPower + a.power + b.power
      && second.leaderboard == RecordAll(s.leaderboard, [ShotEntry(a), ShotEntry(b)])
  {
    RecordAllStep(s.leaderboard, [ShotEntry(a), ShotEntry(b)]);
    RecordAllStep(Record(s.leaderboard, ShotEntry(a)), [ShotEntry(b)]);
    assert [ShotEntry(a), ShotEntry(b)][1..] == [ShotEntry(b)];
  }

  /** On an empty board the loss is visible on the board too: the intended
      completions show the first entry, the as-written ones do not. */
  lemma OverlapDropsFirstEntry(s: State, a: Shot, b: Shot)
    requires WellFormedShot(a) && WellFormedShot(b)
    requires s.leaderboard == [] && ShotEntry(a) != ShotEntry(b)
    ensures var first := CompleteUploadAsWritten(s, s, a.power, a.idTime, a.stampTime, a.digits);
      ShotEntry(a) !in CompleteUploadAsWritten(first, s, b.power, b.idTime, b.stampTime, b.digits).leaderboard
    ensures var first := CompleteUpload(s, a.power, a.idTime, a.stampTime, a.digits);
      ShotEntry(a) in CompleteUpload(first, b.power, b.idTime, b.stampTime, b.digits).leaderboard
  {
    var ea, eb := ShotEntry(a), ShotEntry(b);
    var seen := CompleteUploadAsWritten(s, s, a.power, a.idTime, a.stampTime, a.digits);
    assert CompleteUploadAsWritten(seen, s, b.power, b.idTime, b.stampTime, b.digits).leaderboard == Record([], eb);
    RecordOnTop([], eb);
    assert Record([], eb) == [eb];
    var first := CompleteUpload(s, a.power, a.idTime, a.stampTime, a.digits);
    assert first.leaderboard == Record([], ea);
    assert CompleteUpload(first, b.power, b.idTime, b.stampTime, b.digits).leaderboard == Record(Record([], ea), eb);
    RecordOfTwo(ea, eb);
    assert ea !in [eb];
    assert ea in Record(Record([], ea), eb);
  }
}
