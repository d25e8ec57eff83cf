/** Values shared by the master scheduler's decisions, its textual record and its replay
    (core/utils/master_scheduler.c). */
module MsTypes {
  /** ms_tag_key_t without its mark: a dispatch, its time relative to the start of the run. */
  datatype Key = Key(env: int, elapsed: int, microstep: nat, reaction: nat)

  /** One line of the decision record. */
  datatype Line =
    | D(key: Key)                                     // shed
    | X(key: Key)                                     // deadline violation
    | C(seqNo: int, budget: int, recv: int)           // command received
    | R(recv: int)                                    // command refused
    | M(seqNo: int, budget: int, elapsed: int, microstep: nat, recv: int, apply: int)   // command applied
    | G(elapsed: int, microstep: nat, on: bool, lag: int)                               // guard switched
    | E(sheds: int, violations: int, pending: int)    // end of a complete record

  function DKeys(record: seq<Line>): seq<Key> {
    if record == [] then []
    else DKeys(record[..|record| - 1]) + (var l := record[|record| - 1]; if l.D? then [l.key] else [])
  }

  function XKeys(record: seq<Line>): seq<Key> {
    if record == [] then []
    else XKeys(record[..|record| - 1]) + (var l := record[|record| - 1]; if l.X? then [l.key] else [])
  }

  /** The numbers of the applied commands, in order. */
  function Applied(record: seq<Line>): seq<int> {
    if record == [] then []
    else Applied(record[..|record| - 1]) + (var l := record[|record| - 1]; if l.M? then [l.seqNo] else [])
  }

  lemma KeysAppend(record: seq<Line>, l: Line)
    ensures DKeys(record + [l]) == DKeys(record) + if l.D? then [l.key] else []
    ensures XKeys(record + [l]) == XKeys(record) + if l.X? then [l.key] else []
    ensures Applied(record + [l]) == Applied(record) + if l.M? then [l.seqNo] else []
  {
    assert (record + [l])[..|record|] == record;
  }

  lemma {:induction false} KeysConcat(a: seq<Line>, b: seq<Line>)
    ensures DKeys(a + b) == DKeys(a) + DKeys(b)
    ensures XKeys(a + b) == XKeys(a) + XKeys(b)
    ensures Applied(a + b) == Applied(a) + Applied(b)
  {
    if b == [] {
      assert a + b == a;
    } else {
      var init, l := b[..|b| - 1], b[|b| - 1];
      KeysConcat(a, init);
      KeysAppend(a + init, l);
      KeysAppend(init, l);
      assert a + b == a + init + [l] && b == init + [l];
    }
  }
}
