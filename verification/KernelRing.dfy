/** The kernel module's zero-copy USB ring during one session: slots that wander
    between the device and a reader, under three sequence counters. */
module KernelRing {
  import opened Basics

  datatype SlotState = Free | Inflight | Ready | Claimed

  datatype Slot = Slot(sequence: nat, length: nat, status: int, state: SlotState, data: seq<Byte>)

  /** A slot named by a reader that wants to hand it back. */
  datatype Release = Release(sequence: nat, slot: nat)

  datatype Completion = Completion(sequence: nat, slot: nat, length: nat, status: int)

  datatype Ring = Ring(slotBytes: nat, slots: seq<Slot>, nextClaim: nat, nextRelease: nat, nextSubmit: nat,
                       stopping: bool, fatalError: int, started: bool, disconnected: bool)

  const EBUSY := -16
  const ENODEV := -19
  const EINVAL := -22
  const ECANCELED := -125
  const EMSGSIZE := -90

  /** No error, no stop and no disconnection so far. */
  ghost predicate Healthy(r: Ring)
  {
    !r.stopping && r.fatalError == 0 && !r.disconnected
  }

  /** Every slot carries one of the sequence numbers still in play, at the position
      its number fixes, and is the reader's exactly below `nextClaim`. */
  ghost predicate Inv(r: Ring)
  {
    && 0 < |r.slots| && r.nextSubmit == r.nextRelease + |r.slots|
    && r.nextRelease <= r.nextClaim <= r.nextSubmit
    && forall i :: 0 <= i < |r.slots| ==> SlotOk(r, i)
  }

  ghost predicate SlotOk(r: Ring, i: nat)
    requires i < |r.slots|
  {
    && r.slots[i].sequence % |r.slots| == i
    && r.nextRelease <= r.slots[i].sequence < r.nextSubmit
    && (r.slots[i].sequence < r.nextClaim ==> r.slots[i].state == Claimed)
    && (r.slots[i].sequence >= r.nextClaim ==> r.slots[i].state in {Inflight, Ready})
    && (r.slots[i].state == Ready ==> r.slots[i].status == 0 && r.slots[i].length == r.slotBytes)
  }

  /** The slots hold exactly the numbers `[nextRelease, nextSubmit)`, each where its
      number says. */
  lemma SequenceAt(r: Ring, s: nat)
    requires Inv(r) && r.nextRelease <= s < r.nextSubmit
    ensures r.slots[s % |r.slots|].sequence == s
  {
    var i := s % |r.slots|;
    assert SlotOk(r, i);
    var t := r.slots[i].sequence;
    if t <= s { ModSame(t, s, |r.slots|); } else { ModSame(s, t, |r.slots|); }
  }

  /** Every slot goes to the device. */
  function Started(slotBytes: nat, data: seq<seq<Byte>>): (r: Ring)
    requires 0 < |data|
    ensures Inv(r) && Healthy(r) && |r.slots| == |data|
  {
    var r := Ring(slotBytes, seq(|data|, i requires 0 <= i < |data| => Slot(i, 0, 0, Inflight, data[i])), 0, 0, |data|,
                  false, 0, true, false);
    assert forall i :: 0 <= i < |data| ==> SlotOk(r, i) by {
      forall i | 0 <= i < |data| ensures SlotOk(r, i) { ModSmall(i, |data|); }
    }
    r
  }

  /** What the first failing submission answers; 0 if none fails. */
  function FirstFailure(answers: seq<int>): (result: int)
    ensures result == 0 <==> forall i :: 0 <= i < |answers| ==> answers[i] == 0
  {
    if answers == [] then 0 else if answers[0] != 0 then answers[0] else FirstFailure(answers[1..])
  }

  lemma {:induction false} FirstFailureMeans(answers: seq<int>, i: nat)
    requires i < |answers| && answers[i] != 0 && forall j :: 0 <= j < i ==> answers[j] == 0
    ensures FirstFailure(answers) == answers[i]
  {
    if i > 0 { FirstFailureMeans(answers[1..], i - 1); }
  }

  function Memory(slots: seq<Slot>): (data: seq<seq<Byte>>)
    ensures |data| == |slots| && forall i :: 0 <= i < |slots| ==> data[i] == slots[i].data
  {
    seq(|slots|, i requires 0 <= i < |slots| => slots[i].data)
  }

  /** START; `select` is what selecting the interface answers, `submits` what the
      submissions of the slots do. */
  function Begin(r: Ring, select: int, submits: seq<int>): (Ring, int)
    requires 0 < |r.slots|
  {
    if r.disconnected then (r, ENODEV)
    else if r.started then (r, EBUSY)
    else if select != 0 then (r, select)
    else
      var s, result := Started(r.slotBytes, Memory(r.slots)), FirstFailure(submits);
      (if result != 0 then s.(fatalError := result, stopping := true) else s, result)
  }

  /** A START that answers 0 begins a sound session; one that fails changes nothing, or
      leaves a ring from which nothing can be claimed and to which nothing returns. */
  lemma StartSoundly(r: Ring, select: int, submits: seq<int>)
    requires 0 < |r.slots|
    ensures var (s, result) := Begin(r, select, submits);
      && (result == 0 <==>
            !r.disconnected && !r.started && select == 0 && forall i :: 0 <= i < |submits| ==> submits[i] == 0)
      && (result == 0 ==> Inv(s) && Healthy(s))
      && (r.disconnected ==> result == ENODEV) && (!r.disconnected && r.started ==> result == EBUSY)
      && (!r.disconnected && !r.started && select != 0 ==> result == select)
      && (!r.disconnected && !r.started && select == 0 ==>
            result == FirstFailure(submits) && s.started && s.slotBytes == r.slotBytes && |s.slots| == |r.slots|)
      && (result != 0 && s != r ==>
            && |s.slots| > 0 && Claim(s) == (s, Failed(ECANCELED))
            && forall rel :: ReleaseSlot(s, rel, 0) == (s, EINVAL))
  {
  }

  /** The completion callback for slot `i`. */
  function Complete(r: Ring, i: nat, status: int, actual: nat, data: seq<Byte>): Ring
    requires i < |r.slots|
  {
    var slot := r.slots[i].(data := data);
    if r.stopping || r.disconnected then r.(slots := r.slots[i := slot.(state := Free)])
    else if status != 0 then r.(slots := r.slots[i := slot.(status := status, state := Ready)], fatalError := status)
    else if actual != r.slotBytes then
      r.(slots := r.slots[i := slot.(length := actual, status := EMSGSIZE, state := Ready)], fatalError := EMSGSIZE)
    else r.(slots := r.slots[i := slot.(length := actual, status := 0, state := Ready)])
  }

  /** The kernel's own check on a slot handed back. */
  predicate Releasable(r: Ring, rel: Release)
  {
    && rel.slot < |r.slots|
    && rel.sequence == r.nextRelease
    && r.slots[rel.slot].sequence == rel.sequence
    && r.slots[rel.slot].state == Claimed
  }

  /** The releasing half of RELEASE and EXCHANGE; `submit` is what the USB core
      answers to the resubmission. */
  function ReleaseSlot(r: Ring, rel: Release, submit: int): (Ring, int)
  {
    if !Releasable(r, rel) then (r, EINVAL)
    else
      var r1 := r.(nextRelease := r.nextRelease + 1);
      var slot := r1.slots[rel.slot];
      if r1.stopping || r1.disconnected || r1.fatalError != 0 then
        (r1.(slots := r1.slots[rel.slot := slot.(state := Free)]),
         if r1.disconnected then ENODEV else if r1.fatalError != 0 then r1.fatalError else ECANCELED)
      else
        var sent := slot.(sequence := r1.nextSubmit, length := 0, status := 0, state := Inflight);
        var r2 := r1.(slots := r1.slots[rel.slot := sent], nextSubmit := r1.nextSubmit + 1);
        if submit != 0 then (r2.(slots := r2.slots[rel.slot := sent.(state := Free)], fatalError := submit), submit)
        else (r2, 0)
  }

  datatype Answer = Wait | Failed(error: int) | Got(completion: Completion)

  /** One pass of the claiming loop once its wait is over; `Wait` is the retry. */
  function Claim(r: Ring): (Ring, Answer)
    requires 0 < |r.slots|
  {
    var i := r.nextClaim % |r.slots|;
    if r.disconnected then (r, Failed(ENODEV))
    else if r.stopping then (r, Failed(ECANCELED))
    else if r.fatalError != 0 && r.slots[i].state != Ready then (r, Failed(r.fatalError))
    else if r.slots[i].state != Ready || r.slots[i].sequence != r.nextClaim then (r, Wait)
    else
      (r.(slots := r.slots[i := r.slots[i].(state := Claimed)], nextClaim := r.nextClaim + 1),
       Got(Completion(r.slots[i].sequence, i, r.slots[i].length, r.slots[i].status)))
  }

  lemma CompleteKeeps(r: Ring, i: nat, data: seq<Byte>)
    requires Inv(r) && Healthy(r) && i < |r.slots| && r.slots[i].state == Inflight
    ensures Inv(Complete(r, i, 0, r.slotBytes, data)) && Healthy(Complete(r, i, 0, r.slotBytes, data))
  {
    var r' := Complete(r, i, 0, r.slotBytes, data);
    forall j | 0 <= j < |r'.slots| ensures SlotOk(r', j) { assert SlotOk(r, j) && SlotOk(r, i); }
  }

  /** A reader that hands back the oldest claimed number is always accepted, and the
      slot returns to the device under the next number, in the same place. */
  lemma ReleaseKeeps(r: Ring, rel: Release)
    requires Inv(r) && Healthy(r) && r.nextRelease < r.nextClaim
    requires rel == Release(r.nextRelease, r.nextRelease % |r.slots|)
    ensures ReleaseSlot(r, rel, 0).1 == 0
    ensures Inv(ReleaseSlot(r, rel, 0).0) && Healthy(ReleaseSlot(r, rel, 0).0)
  {
    SequenceAt(r, r.nextRelease);
    var r' := ReleaseSlot(r, rel, 0).0;
    assert SlotOk(r, rel.slot);
    ModShift(r.nextRelease, |r.slots|);
    forall j | 0 <= j < |r'.slots| ensures SlotOk(r', j) { assert SlotOk(r, j); }
  }

  /** A ready slot under the claim position always carries the claimed number, so
      the mismatch retry is never taken. */
  lemma ReadyIsNext(r: Ring)
    requires Inv(r) && r.slots[r.nextClaim % |r.slots|].state == Ready
    ensures r.nextClaim < r.nextSubmit
    ensures r.slots[r.nextClaim % |r.slots|].sequence == r.nextClaim
  {
    var i, n := r.nextClaim % |r.slots|, |r.slots|;
    assert SlotOk(r, i);
    ModSame(r.nextClaim, r.slots[i].sequence, n);
  }

  lemma ClaimKeeps(r: Ring)
    requires Inv(r) && Healthy(r) && r.slots[r.nextClaim % |r.slots|].state == Ready
    ensures Claim(r).1 == Got(Completion(r.nextClaim, r.nextClaim % |r.slots|, r.slotBytes, 0))
    ensures Inv(Claim(r).0) && Healthy(Claim(r).0)
  {
    ReadyIsNext(r);
    var r', i := Claim(r).0, r.nextClaim % |r.slots|;
    assert SlotOk(r, i);
    forall j | 0 <= j < |r'.slots| ensures SlotOk(r', j) {
      assert SlotOk(r, j);
      if j != i { assert r.slots[j].sequence != r.nextClaim; }
    }
  }

  /** While a number is neither claimed nor spent, its slot is with the device or
      ready: the reader's wait can end. */
  lemma NextIsComing(r: Ring)
    requires Inv(r) && r.nextClaim < r.nextSubmit
    ensures r.slots[r.nextClaim % |r.slots|].state in {Inflight, Ready}
    ensures r.slots[r.nextClaim % |r.slots|].sequence == r.nextClaim
  {
    SequenceAt(r, r.nextClaim);
    assert SlotOk(r, r.nextClaim % |r.slots|);
  }

  // ---- errors, for every ring

  /** What a completion means, by what ended it. */
  lemma CompletionMeans(r: Ring, i: nat, status: int, actual: nat, data: seq<Byte>)
    requires i < |r.slots|
    ensures var r' := Complete(r, i, status, actual, data); var slot := r'.slots[i];
      && |r'.slots| == |r.slots| && (forall j :: 0 <= j < |r.slots| && j != i ==> r'.slots[j] == r.slots[j])
      && slot.data == data && slot.sequence == r.slots[i].sequence
      && r' == r.(slots := r'.slots, fatalError := r'.fatalError)
      && (r.stopping || r.disconnected ==> slot.state == Free && r'.fatalError == r.fatalError)
      && (!r.stopping && !r.disconnected ==> slot.state == Ready && (slot.status == 0 ==> slot.length == actual))
      && (!r.stopping && !r.disconnected && status == 0 && actual == r.slotBytes ==>
            slot.status == 0 && r'.fatalError == r.fatalError)
      && (!r.stopping && !r.disconnected && (status != 0 || actual != r.slotBytes) ==>
            && r'.fatalError == (if status != 0 then status else EMSGSIZE)
            && r'.fatalError != 0 && slot.status == r'.fatalError)
  {
  }

  /** A ready slot without an error is full, and one with an error has stopped the ring. */
  ghost predicate ReadySound(r: Ring)
  {
    forall i :: 0 <= i < |r.slots| && r.slots[i].state == Ready ==>
      if r.slots[i].status == 0 then r.slots[i].length == r.slotBytes else r.fatalError != 0
  }

  /** What can happen to the ring of one session. */
  datatype Event =
    | Completes(slot: nat, status: int, actual: nat, data: seq<Byte>)
    | Releases(release: Release, submit: int)
    | Claims
    | Stops
    | Disconnects

  predicate Possible(r: Ring, e: Event)
  {
    0 < |r.slots| && (e.Completes? ==> e.slot < |r.slots|)
  }

  function After(r: Ring, e: Event): Ring
    requires Possible(r, e)
  {
    match e
    case Completes(i, status, actual, data) => Complete(r, i, status, actual, data)
    case Releases(rel, submit) => ReleaseSlot(r, rel, submit).0
    case Claims => Claim(r).0
    case Stops => r.(stopping := true)
    case Disconnects => r.(stopping := true, disconnected := true)
  }

  /** Everything keeps ready slots sound; errors stay; after an error or a stop nothing is
      submitted, and after a stop no slot becomes ready. */
  lemma EventKeeps(r: Ring, e: Event)
    requires Possible(r, e)
    ensures var r' := After(r, e);
      && |r'.slots| == |r.slots| && r'.slotBytes == r.slotBytes
      && (ReadySound(r) ==> ReadySound(r'))
      && (r.fatalError != 0 ==> r'.fatalError != 0) && (r.stopping ==> r'.stopping)
      && (r.disconnected ==> r'.disconnected)
      && (r.fatalError != 0 || r.stopping || r.disconnected ==>
            && r'.nextSubmit == r.nextSubmit
            && forall i :: 0 <= i < |r.slots| && r'.slots[i].state == Inflight ==> r.slots[i].state == Inflight)
      && (r.stopping || r.disconnected ==>
            forall i :: 0 <= i < |r.slots| && r'.slots[i].state == Ready ==> r.slots[i].state == Ready)
  {
    hide ReleaseSlot, Claim;
    match e
    case Releases(rel, submit) => ReleaseMeans(r, rel, submit);
    case Claims => ClaimMeans(r);
    case _ =>
  }

  /** A claim is never answered with a batch that is short and without an error. */
  lemma ClaimSound(r: Ring)
    requires 0 < |r.slots| && ReadySound(r) && Claim(r).1.Got?
    ensures var c := Claim(r).1.completion; var slot := r.slots[c.slot % |r.slots|];
      && c.slot == r.nextClaim % |r.slots| && c.sequence == r.nextClaim == slot.sequence
      && slot.state == Ready && c.length == slot.length && c.status == slot.status
      && (c.status == 0 ==> c.length == r.slotBytes) && (c.status != 0 ==> r.fatalError != 0)
      && !r.stopping && !r.disconnected
  {
  }

  /** The oldest claimed slot, named rightly. */
  ghost predicate NamesOldest(r: Ring, rel: Release)
  {
    rel.slot < |r.slots| && r.slots[rel.slot] == r.slots[rel.slot].(sequence := rel.sequence, state := Claimed) &&
    rel.sequence == r.nextRelease
  }

  /** What a release is answered, and what becomes of the slot. */
  lemma ReleaseMeans(r: Ring, rel: Release, submit: int)
    ensures var (r', result) := ReleaseSlot(r, rel, submit);
            var ended := r.disconnected || r.fatalError != 0 || r.stopping;
      && r' == r.(slots := r'.slots, nextRelease := r'.nextRelease, nextSubmit := r'.nextSubmit,
                  fatalError := r'.fatalError)
      && (!NamesOldest(r, rel) ==> r' == r && result == EINVAL)
      && (NamesOldest(r, rel) ==>
            && r'.nextRelease == r.nextRelease + 1 && r'.nextClaim == r.nextClaim && |r'.slots| == |r.slots|
            && (forall j :: 0 <= j < |r.slots| && j != rel.slot ==> r'.slots[j] == r.slots[j])
            && (ended ==>
                  && r'.slots[rel.slot].state == Free && r'.nextSubmit == r.nextSubmit
                  && r'.fatalError == r.fatalError
                  && result == (if r.disconnected then ENODEV else if r.fatalError != 0 then r.fatalError
                                else ECANCELED))
            && (!ended ==> r'.nextSubmit == r.nextSubmit + 1 && result == submit == r'.fatalError)
            && (!ended && submit == 0 ==>
                  r'.slots[rel.slot].state == Inflight && r'.slots[rel.slot].sequence == r.nextSubmit)
            && (!ended && submit != 0 ==> r'.slots[rel.slot].state == Free))
  {
  }

  /** What a claim is answered. */
  lemma ClaimMeans(r: Ring)
    requires 0 < |r.slots|
    ensures var slot := r.slots[r.nextClaim % |r.slots|]; var (r', answer) := Claim(r);
      && (answer.Got? <==> !r.disconnected && !r.stopping && slot.state == Ready && slot.sequence == r.nextClaim)
      && (!answer.Got? ==> r' == r)
      && (answer.Failed? <==> r.disconnected || r.stopping || (r.fatalError != 0 && slot.state != Ready))
      && (answer.Failed? ==>
            answer.error == (if r.disconnected then ENODEV else if r.stopping then ECANCELED else r.fatalError))
      && (answer.Got? ==> r' == r.(slots := r.slots[r.nextClaim % |r.slots| := slot.(state := Claimed)],
                                   nextClaim := r.nextClaim + 1))
  {
  }

  ghost predicate PossibleRun(r: Ring, es: seq<Event>)
    decreases |es|
  {
    es == [] || (Possible(r, es[0]) && PossibleRun(After(r, es[0]), es[1..]))
  }

  ghost function AfterRun(r: Ring, es: seq<Event>): Ring
    requires PossibleRun(r, es)
    decreases |es|
  {
    if es == [] then r else AfterRun(After(r, es[0]), es[1..])
  }

  lemma {:induction false} RunKeeps(r: Ring, es: seq<Event>)
    requires PossibleRun(r, es) && 0 < |r.slots| && ReadySound(r)
    ensures var r' := AfterRun(r, es);
      && 0 < |r'.slots| && r'.slotBytes == r.slotBytes && ReadySound(r')
      && (r.fatalError != 0 ==> r'.fatalError != 0 && r'.nextSubmit == r.nextSubmit)
      && (r.stopping ==> r'.stopping && r'.nextSubmit == r.nextSubmit)
    decreases |es|
  {
    hide After, Possible, ReadySound;
    if es != [] {
      assert 0 < |r.slots| && Possible(r, es[0]);
      EventKeeps(r, es[0]);
      assert |After(r, es[0]).slots| == |r.slots|;
      RunKeeps(After(r, es[0]), es[1..]);
    }
  }

  /** Whatever happens after START, with any mixture of errors: a batch claimed without an
      error is whole. */
  lemma ClaimsAreWhole(r: Ring, select: int, submits: seq<int>, es: seq<Event>)
    requires 0 < |r.slots| && Begin(r, select, submits).1 == 0 && PossibleRun(Begin(r, select, submits).0, es)
    ensures var e := AfterRun(Begin(r, select, submits).0, es);
      && 0 < |e.slots|
      && (Claim(e).1.Got? && Claim(e).1.completion.status == 0 ==> Claim(e).1.completion.length == r.slotBytes)
  {
    hide Claim;
    RunKeeps(Begin(r, select, submits).0, es);
    var e := AfterRun(Begin(r, select, submits).0, es);
    if Claim(e).1.Got? { ClaimSound(e); }
  }

  /** The module's own state: the slots under one spin lock. */
  class UsbRing {
    const slotBytes: nat
    const slots: array<Slot>
    var nextClaim: nat
    var nextRelease: nat
    var nextSubmit: nat
    var stopping: bool
    var fatalError: int
    var started: bool
    var disconnected: bool

    ghost function State(): Ring
      reads this, slots
    {
      Ring(slotBytes, slots[..], nextClaim, nextRelease, nextSubmit, stopping, fatalError, started, disconnected)
    }

    constructor (slotCount: nat, slotBytes: nat)
      ensures slots.Length == slotCount && this.slotBytes == slotBytes
    {
      this.slotBytes := slotBytes;
      slots := new Slot[slotCount](_ => Slot(0, 0, 0, Free, []));
      nextClaim, nextRelease, nextSubmit := 0, 0, 0;
      stopping, fatalError, started, disconnected := false, 0, false, false;
    }

    method Start(select: int, submits: seq<int>) returns (result: int)
      requires 0 < slots.Length && |submits| == slots.Length
      modifies this, slots
      ensures (State(), result) == Begin(old(State()), select, submits)
    {
      if disconnected { return ENODEV; }
      if started { return EBUSY; }
      if select != 0 { return select; }
      stopping, fatalError, started := false, 0, true;
      nextClaim, nextRelease, nextSubmit := 0, 0, slots.Length;
      for index := 0 to slots.Length
        modifies slots
        invariant forall j :: 0 <= j < index ==> slots[j] == Slot(j, 0, 0, Inflight, old(slots[j].data))
        invariant forall j :: index <= j < slots.Length ==> slots[j] == old(slots[j])
      {
        slots[index] := slots[index].(sequence := index, length := 0, status := 0, state := Inflight);
      }
      result := SubmitAll(submits);
      assert slots[..] == Started(slotBytes, Memory(old(slots[..]))).slots;
      if result != 0 { fatalError, stopping := result, true; }
    }

    /** Submits slot after slot until one fails. */
    method SubmitAll(submits: seq<int>) returns (result: int)
      ensures result == FirstFailure(submits)
    {
      result := 0;
      var index := 0;
      while index < |submits| && result == 0
        invariant index <= |submits|
        invariant FirstFailure(submits) == if result != 0 then result else FirstFailure(submits[index..])
      {
        result, index := submits[index], index + 1;
      }
    }

    /** The completion callback: the device has written `data` into the slot. */
    method OnComplete(i: nat, status: int, actual: nat, data: seq<Byte>)
      requires i < slots.Length
      modifies this, slots
      ensures State() == Complete(old(State()), i, status, actual, data)
    {
      slots[i] := slots[i].(data := data);
      if stopping || disconnected {
        slots[i] := slots[i].(state := Free);
      } else if status != 0 {
        slots[i] := slots[i].(status := status, state := Ready);
        fatalError := status;
      } else if actual != slotBytes {
        slots[i] := slots[i].(length := actual, status := EMSGSIZE, state := Ready);
        fatalError := EMSGSIZE;
      } else {
        slots[i] := slots[i].(length := actual, status := 0, state := Ready);
      }
    }

    method ExchangeRelease(rel: Release, submit: int) returns (result: int)
      modifies this, slots
      ensures (State(), result) == ReleaseSlot(old(State()), rel, submit)
    {
      if rel.slot >= slots.Length || rel.sequence != nextRelease ||
         slots[rel.slot].sequence != rel.sequence || slots[rel.slot].state != Claimed {
        return EINVAL;
      }
      nextRelease := nextRelease + 1;
      if stopping || disconnected || fatalError != 0 {
        slots[rel.slot] := slots[rel.slot].(state := Free);
        return if disconnected then ENODEV else if fatalError != 0 then fatalError else ECANCELED;
      }
      slots[rel.slot] := slots[rel.slot].(sequence := nextSubmit, length := 0, status := 0, state := Inflight);
      nextSubmit := nextSubmit + 1;
      result := submit;
      if result != 0 {
        slots[rel.slot] := slots[rel.slot].(state := Free);
        fatalError := result;
      }
    }

    method ExchangeClaim() returns (answer: Answer)
      requires 0 < slots.Length
      modifies this, slots
      ensures (State(), answer) == Claim(old(State()))
    {
      var index := nextClaim % slots.Length;
      if disconnected { return Failed(ENODEV); }
      if stopping { return Failed(ECANCELED); }
      if fatalError != 0 && slots[index].state != Ready { return Failed(fatalError); }
      if slots[index].state != Ready || slots[index].sequence != nextClaim { return Wait; }
      answer := Got(Completion(slots[index].sequence, index, slots[index].length, slots[index].status));
      slots[index] := slots[index].(state := Claimed);
      nextClaim := nextClaim + 1;
    }

    /** The first half of STOP; the device's transfers are then cancelled. */
    method Stop() returns (running: bool)
      modifies this`stopping
      ensures running == started && State() == old(State()).(stopping := old(stopping) || running)
    {
      running := started;
      if running { stopping := true; }
    }

    method Stopped()
      modifies this`started
      ensures State() == old(State()).(started := false)
    {
      started := false;
    }

    method Disconnect()
      modifies this
      ensures State() == old(State()).(stopping := true, disconnected := true)
    {
      disconnected, stopping := true, true;
    }
  }
}
