/** The synchronous reader's ring: one thread fills slots from the device, one
    client claims and releases them.  Each method is one critical section; the two
    threads may take them in any order. */
module DirectRing {
  import opened Basics

  datatype BufferState = Free | Filling | Ready | Claimed

  datatype Buffer = Buffer(data: seq<Byte>, length: nat, state: BufferState)

  /** Where the reading thread is between two critical sections. */
  datatype Thread = Waiting | Reading | Exited

  datatype NextResult = Batch(data: seq<Byte>) | Wait | Failed(error: int)

  const EIO := -5
  const ECANCELED := -125

  class DirectRing {
    const slots: array<Buffer>
    var producer: nat
    var consumer: nat
    var stopping: bool
    var readDone: bool
    var readResult: int
    var thread: Thread

    /** Everything made ready, everything handed to the client, and how many of
        those the client gave back. */
    ghost var produced: seq<seq<Byte>>
    ghost var delivered: seq<seq<Byte>>
    ghost var released: nat

    /** Counting slots from the consumer: at most one claimed, then the ready ones
        in order, then at most one filling at the producer, then free ones. */
    ghost predicate Layout(k: nat)
      requires 0 < slots.Length && |delivered| <= |produced|
      reads this, slots
    {
      var s := slots[k % slots.Length];
      if k < |delivered| then s.state == Claimed && s.data == delivered[k] && s.length == |s.data|
      else if k < |produced| then s.state == Ready && s.data == produced[k] && s.length == |s.data|
      else if k == |produced| && thread == Reading then s.state == Filling
      else s.state == Free
    }

    ghost predicate Valid()
      reads this, slots
    {
      && 0 < slots.Length
      && released <= |delivered| <= released + 1 && |delivered| <= |produced| <= released + slots.Length
      && (thread == Reading ==> |produced| < released + slots.Length)
      && producer == |produced| % slots.Length && consumer == released % slots.Length
      && delivered == produced[..|delivered|]
      && (thread == Exited ==> readDone) && (readDone ==> thread == Exited)
      && forall k :: released <= k < released + slots.Length ==> Layout(k)
    }

    constructor (count: nat)
      requires 0 < count
      ensures Valid() && produced == [] && delivered == [] && released == 0 && thread == Waiting && !stopping &&
              slots.Length == count
    {
      slots := new Buffer[count](_ => Buffer([], 0, Free));
      producer, consumer, stopping, readDone, readResult, thread := 0, 0, false, false, 0, Waiting;
      produced, delivered, released := [], [], 0;
    }

    lemma Elsewhere(a: nat, b: nat)
      requires 0 < slots.Length && released <= a < released + slots.Length &&
               released <= b < released + slots.Length && a != b
      ensures a % slots.Length != b % slots.Length
    {
      if a % slots.Length == b % slots.Length {
        if a < b { ModSame(a, b, slots.Length); } else { ModSame(b, a, slots.Length); }
      }
    }

    /** The thread finds the producer's slot free and starts filling it. */
    method TakeSlot() returns (taken: bool)
      requires Valid() && thread == Waiting && !stopping
      modifies this`thread, slots
      ensures Valid() && taken == (|produced| < released + slots.Length)
      ensures thread == if taken then Reading else Waiting
    {
      ghost var p := |produced|;
      if p < released + slots.Length {
        assert Layout(p);
      } else {
        assert Layout(released);
        ModShift(released, slots.Length);
      }
      taken := slots[producer].state == Free;
      if taken {
        slots[producer] := slots[producer].(state := Filling);
        thread := Reading;
        forall k | released <= k < released + slots.Length ensures Layout(k) {
          assert old(Layout(k));
          if k != p { Elsewhere(k, p); }
        }
      }
    }

    /** The device writes into the slot being filled; nobody else's bytes change. */
    method DeviceWrites(data: seq<Byte>)
      requires Valid() && thread == Reading
      modifies slots
      ensures Valid()
      ensures forall k :: released <= k < |produced| ==> slots[k % slots.Length] == old(slots[k % slots.Length])
    {
      ghost var p := |produced|;
      assert Layout(p);
      slots[producer] := slots[producer].(data := data);
      forall k | released <= k < released + slots.Length
        ensures Layout(k) && (k < p ==> slots[k % slots.Length] == old(slots[k % slots.Length]))
      {
        assert old(Layout(k));
        if k != p { Elsewhere(k, p); }
      }
    }

    /** The device call returned. */
    method ReadReturns(result: int, data: seq<Byte>)
      requires Valid() && thread == Reading
      modifies this`thread, this`producer, this`readDone, this`readResult, this`produced, slots
      ensures Valid()
      ensures !stopping && result >= 0 && |data| > 0 ==>
                produced == old(produced) + [data] && thread == Waiting && readDone == old(readDone) &&
                readResult == old(readResult)
      ensures stopping || result < 0 || |data| == 0 ==> produced == old(produced) && thread == Exited && readDone
      ensures !stopping && (result < 0 || |data| == 0) ==> readResult == if result < 0 then result else EIO
    {
      ghost var p := |produced|;
      assert Layout(p);
      if stopping {
        slots[producer] := slots[producer].(state := Free);
        readDone := true;
        thread := Exited;
      } else if result < 0 || |data| == 0 {
        slots[producer] := slots[producer].(state := Free);
        readResult := if result < 0 then result else EIO;
        readDone := true;
        thread := Exited;
      } else {
        slots[producer] := slots[producer].(data := data, length := |data|, state := Ready);
        ModStep(p, slots.Length);
        producer := (producer + 1) % slots.Length;
        thread := Waiting;
        produced := produced + [data];
      }
      forall k | released <= k < released + slots.Length ensures Layout(k) {
        assert old(Layout(k));
        if k != p { Elsewhere(k, p); }
      }
    }

    /** The thread notices the stop while it waits for a free slot. */
    method ThreadStops()
      requires Valid() && thread == Waiting && stopping
      modifies this`thread, this`readDone
      ensures Valid() && thread == Exited
    {
      forall k | released <= k < released + slots.Length ensures old(Layout(k)) { }
      readDone := true;
      thread := Exited;
      forall k | released <= k < released + slots.Length ensures Layout(k) { assert old(Layout(k)); }
    }

    /** The client asks for the next batch.  A batch that was made ready always comes
        before a read error does. */
    method Next() returns (result: NextResult)
      requires Valid()
      modifies this`delivered, slots
      ensures Valid()
      ensures released == |old(delivered)| < |produced| ==>
                result == Batch(produced[released]) && delivered == old(delivered) + [produced[released]]
      ensures !(released == |old(delivered)| < |produced|) ==> delivered == old(delivered)
      ensures !(released == |old(delivered)| < |produced|) ==>
                result == if !readDone && !stopping then Wait
                else Failed(if stopping || readResult == 0 then ECANCELED else readResult)
    {
      ghost var d := released;
      assert Layout(d);
      var slot := slots[consumer];
      if slot.state == Ready {
        slots[consumer] := slot.(state := Claimed);
        result := Batch(slot.data);
        delivered := delivered + [slot.data];
        forall k | released <= k < released + slots.Length ensures Layout(k) {
          assert old(Layout(k));
          if k != d { Elsewhere(k, d); }
        }
      } else if !readDone && !stopping {
        result := Wait;
      } else {
        result := Failed(if stopping || readResult == 0 then ECANCELED else readResult);
      }
    }

    /** The client gives its batch back. */
    method Release() returns (ok: bool)
      requires Valid()
      modifies this`consumer, this`released, slots
      ensures Valid() && ok == (old(released) < |delivered|)
      ensures released == if ok then old(released) + 1 else old(released)
    {
      ghost var r, n := released, slots.Length;
      assert Layout(r);
      ok := slots[consumer].state == Claimed;
      if ok {
        slots[consumer] := slots[consumer].(length := 0, state := Free);
        ModStep(r, n);
        ModShift(r, n);
        consumer := (consumer + 1) % slots.Length;
        released := released + 1;
        forall k | released <= k < released + n ensures Layout(k) {
          if k < r + n {
            assert old(Layout(k));
            if k % n == r % n { ModSame(r, k, n); }
          }
        }
      }
    }

    method Cancel()
      requires Valid()
      modifies this`stopping
      ensures Valid() && stopping
    {
      stopping := true;
      forall k | released <= k < released + slots.Length ensures Layout(k) { assert old(Layout(k)); }
    }

    /** Delivery is exactly once and in order, and what the client holds is still
        what was read. */
    lemma FirstInFirstOut()
      requires Valid()
      ensures delivered <= produced
      ensures released < |delivered| ==> slots[consumer].state == Claimed && slots[consumer].data == produced[released]
      ensures forall k :: |delivered| <= k < |produced| ==>
              slots[k % slots.Length].state == Ready && slots[k % slots.Length].data == produced[k]
      ensures thread == Reading ==> slots[producer].state == Filling
      ensures forall i :: 0 <= i < slots.Length && slots[i].state == Filling ==> thread == Reading && i == producer
      ensures forall i :: 0 <= i < slots.Length && slots[i].state == Claimed ==> released < |delivered| && i == consumer
    {
      if released < |delivered| { assert Layout(released); }
      if thread == Reading { assert Layout(|produced|); }
      forall k | |delivered| <= k < |produced|
        ensures slots[k % slots.Length].state == Ready && slots[k % slots.Length].data == produced[k]
      {
        assert Layout(k);
      }
      forall i | 0 <= i < slots.Length
        ensures slots[i].state == Filling ==> thread == Reading && i == producer
        ensures slots[i].state == Claimed ==> released < |delivered| && i == consumer
      {
        var k := Covering(i);
        assert Layout(k);
      }
    }

    /** Every slot is one of the `slots.Length` counted from the consumer. */
    lemma Covering(i: nat) returns (k: nat)
      requires Valid() && i < slots.Length
      ensures released <= k < released + slots.Length && k % slots.Length == i
    {
      k := Congruent(released, i, slots.Length);
    }
  }
}
