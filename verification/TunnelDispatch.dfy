/**
 The tunnel subscription's event-stream reader. Frames are cut out of a buffer that grows chunk by chunk;
 callbacks go through one-shot guards. The callbacks made depend only on the concatenated body, and
 each subscription ends exactly once.
 */
module TunnelDispatch {
  import opened Prelude
  import opened TunnelFrames

  datatype Mark = Started | Data(value: Value) | Complete | Error(failure: Failure) | Unsubscribed

  /** How the body ends once its chunks are used up. */
  datatype Ending = Closed | Broken

  datatype Response = NoRequest | FetchError | NotOk | NoBody | Body(chunks: seq<string>, ending: Ending)

  // ---- Delivering frames --------------------------------------------------------------------

  /**
   The caller-visible state: the marks so far, the one-shot `settled` flag, whether the caller
   unsubscribed, whether a terminal frame was reached, and how many data callbacks were made.
   */
  datatype Delivery = Delivery(marks: seq<Mark>, settled: bool, aborted: bool, ended: bool, count: nat)

  function Settle(d: Delivery, m: Mark): Delivery {
    if d.settled then d else d.(marks := d.marks + [m], settled := true)
  }

  function Unsubscribe(d: Delivery): Delivery {
    if d.settled then d else d.(marks := d.marks + [Unsubscribed], settled := true, aborted := true)
  }

  /** One frame; `quits(n)` says whether the handler of the n-th data callback unsubscribes. */
  function DeliverOne(p: Parser, quits: nat -> bool, d: Delivery, frame: string): Delivery {
    if frame == "" then d
    else
      match ActionOf(p, frame)
      case Ignore => d
      case Finish => Settle(d, Complete).(ended := true)
      case Fail(failure) => Settle(d, Error(failure)).(ended := true)
      case Deliver(v) =>
        if d.aborted then d
        else
          var told := d.(marks := d.marks + [Data(v)], count := d.count + 1);
          if quits(d.count) then Unsubscribe(told) else told
  }

  function DeliverAll(p: Parser, quits: nat -> bool, d: Delivery, frames: seq<string>): Delivery
    decreases |frames|
  {
    if frames == [] || d.ended then d
    else DeliverAll(p, quits, DeliverOne(p, quits, d, frames[0]), frames[1..])
  }

  lemma {:induction false} DeliverConcat(p: Parser, quits: nat -> bool, d: Delivery, a: seq<string>, b: seq<string>)
    ensures DeliverAll(p, quits, d, a + b) == DeliverAll(p, quits, DeliverAll(p, quits, d, a), b)
    decreases |a|
  {
    hide DeliverOne;
    if a == [] {
      assert a + b == b;
    } else if !d.ended {
      assert (a + b)[1..] == a[1..] + b;
      DeliverConcat(p, quits, DeliverOne(p, quits, d, a[0]), a[1..], b);
    }
  }

  /** Settling happens once, and it is the last thing the caller hears, but for onStarted. */
  ghost predicate Settles(m: Mark) {
    m.Complete? || m.Error? || m.Unsubscribed?
  }

  ghost predicate Orderly(d: Delivery) {
    && (d.settled <==> exists i :: 0 <= i < |d.marks| && Settles(d.marks[i]))
    && (d.aborted <==> exists i :: 0 <= i < |d.marks| && d.marks[i] == Unsubscribed)
    && (forall i, j :: 0 <= i < j < |d.marks| && Settles(d.marks[i]) ==> d.marks[j] == Started)
    && (d.ended ==> d.settled)
  }

  lemma {:induction false} OrderlyMark(d: Delivery, m: Mark)
    requires Orderly(d) && !d.settled
    ensures Orderly(d.(marks := d.marks + [m], settled := Settles(m), aborted := m.Unsubscribed?))
  {
    var all := d.marks + [m];
    assert forall i :: 0 <= i < |d.marks| ==> all[i] == d.marks[i];
    assert all[|d.marks|] == m;
  }

  lemma {:induction false} DeliverOneIsOrderly(p: Parser, quits: nat -> bool, d: Delivery, frame: string)
    requires Orderly(d) && (d.settled ==> d.aborted) && !d.ended
    ensures var d' := DeliverOne(p, quits, d, frame);
            && Orderly(d')
            && (d'.settled ==> d'.aborted || d'.ended)
            && d.marks <= d'.marks
            && (d.settled ==> d'.marks == d.marks && d'.settled)
  {
    hide ActionOf;
    if frame != "" && !d.settled {
      match ActionOf(p, frame)
      case Ignore =>
      case Finish => OrderlyMark(d, Complete);
      case Fail(failure) => OrderlyMark(d, Error(failure));
      case Deliver(v) =>
        OrderlyMark(d, Data(v));
        OrderlyMark(d.(marks := d.marks + [Data(v)], count := d.count + 1), Unsubscribed);
    }
  }

  lemma {:induction false} DeliverAllIsOrderly(p: Parser, quits: nat -> bool, d: Delivery, frames: seq<string>)
    requires Orderly(d) && (d.settled ==> d.aborted || d.ended)
    ensures var d' := DeliverAll(p, quits, d, frames);
            && Orderly(d') && (d'.settled ==> d'.aborted || d'.ended)
            && d.marks <= d'.marks
            && (d.settled ==> d'.marks == d.marks && d'.settled)
    decreases |frames|
  {
    hide DeliverOne, Orderly;
    if frames != [] && !d.ended {
      DeliverOneIsOrderly(p, quits, d, frames[0]);
      DeliverAllIsOrderly(p, quits, DeliverOne(p, quits, d, frames[0]), frames[1..]);
    }
  }

  /** Some position from `from` up to, not including, `to` unsubscribes. */
  ghost predicate Asked(quits: nat -> bool, from: nat, to: nat) {
    exists n: nat :: from <= n < to && quits(n)
  }

  /** A delivery is only ever aborted by the caller: some handler it called unsubscribed. */
  lemma {:induction false} DeliverAllAborts(p: Parser, quits: nat -> bool, d: Delivery, frames: seq<string>)
    ensures var d' := DeliverAll(p, quits, d, frames);
            && d.count <= d'.count
            && (d'.aborted ==> d.aborted || Asked(quits, d.count, d'.count))
    decreases |frames|
  {
    if frames != [] && !d.ended {
      var next := DeliverOne(p, quits, d, frames[0]);
      DeliverOneAborts(p, quits, d, frames[0]);
      DeliverAllAborts(p, quits, next, frames[1..]);
    }
  }

  lemma {:induction false} DeliverOneAborts(p: Parser, quits: nat -> bool, d: Delivery, frame: string)
    ensures var d' := DeliverOne(p, quits, d, frame);
            && d.count <= d'.count
            && (d'.aborted ==> d.aborted || Asked(quits, d.count, d'.count))
  {
    hide ActionOf;
    var d' := DeliverOne(p, quits, d, frame);
    assert d'.aborted && !d.aborted ==> d.count < d'.count && quits(d.count);
  }

  // ---- What the caller hears ------------------------------------------------------------------------

  /** What a frame makes a caller hear who is still listening, by what the frame means. */
  ghost predicate Heard(p: Parser, quits: nat -> bool, d: Delivery, frame: string, d': Delivery) {
    && (frame == "" || SaysNothing(frame) ==> d' == d)
    && (EndsWell(p, frame) ==> d'.marks == d.marks + [Complete] && d'.ended)
    && (forall failure :: EndsBadly(p, frame, failure) ==> d'.marks == d.marks + [Error(failure)] && d'.ended)
    && (forall value :: Carries(p, frame, value) ==>
          d'.marks == d.marks + [Data(value)] + (if quits(d.count) then [Unsubscribed] else []) && d'.ended == d.ended)
  }

  lemma {:induction false} FrameIsHeard(p: Parser, quits: nat -> bool, d: Delivery, frame: string)
    requires !d.settled && !d.aborted
    ensures Heard(p, quits, d, frame, DeliverOne(p, quits, d, frame))
  {
    hide ActionOf, SaysNothing, EndsWell, EndsBadly, Carries;
    if frame == "" {
      EmptyFrame(p);
    } else {
      ActionMeaning(p, frame);
    }
  }

  lemma EmptyFrame(p: Parser)
    ensures !EndsWell(p, "") && (forall failure :: !EndsBadly(p, "", failure)) && forall value :: !Carries(p, "", value)
  {}

  ghost predicate Terminal(p: Parser, frame: string) {
    EndsWell(p, frame) || exists failure :: EndsBadly(p, frame, failure)
  }

  /** The data the frames carry, in order. */
  ghost function Payloads(p: Parser, frames: seq<string>): seq<Mark> {
    if frames == [] then [] else Payloads(p, frames[..|frames| - 1]) + Payload(p, frames[|frames| - 1])
  }

  ghost function Payload(p: Parser, frame: string): seq<Mark> {
    if exists value :: Carries(p, frame, value) then
      var value :| Carries(p, frame, value);
      [Data(value)]
    else []
  }

  /** Frame `t` is the first terminal one; there is none when `t` is their number. */
  ghost predicate FirstEnding(p: Parser, frames: seq<string>, t: int) {
    && 0 <= t <= |frames| && (forall i :: 0 <= i < t ==> !Terminal(p, frames[i]))
    && (t < |frames| ==> Terminal(p, frames[t]))
  }

  /** Every sequence of frames has its first terminal one, or none. */
  lemma {:induction false} FirstEndingExists(p: Parser, frames: seq<string>) returns (t: nat)
    ensures FirstEnding(p, frames, t)
    ensures forall other :: FirstEnding(p, frames, other) ==> other == t
  {
    hide Terminal;
    t := 0;
    while t < |frames| && !Terminal(p, frames[t])
      invariant t <= |frames| && forall i :: 0 <= i < t ==> !Terminal(p, frames[i])
    {
      t := t + 1;
    }
  }

  lemma {:induction false} QuietFrame(p: Parser, quits: nat -> bool, d: Delivery, frame: string)
    requires !d.settled && !d.aborted && !d.ended && !quits(d.count) && !Terminal(p, frame)
    ensures var d' := DeliverOne(p, quits, d, frame);
            d'.marks == d.marks + Payload(p, frame) && !d'.settled && !d'.aborted && !d'.ended
  {
    hide ActionOf, SaysNothing, EndsWell, EndsBadly, Carries;
    if frame == "" {
      EmptyFrame(p);
    } else {
      ActionMeaning(p, frame);
    }
  }

  /** Without an unsubscribe: the data of all frames before the first terminal one, then what that one says. */
  lemma {:induction false} FramesAreHeard(p: Parser, quits: nat -> bool, d: Delivery, frames: seq<string>, t: int)
    requires !d.settled && !d.aborted && !d.ended && (forall n :: !quits(n)) && FirstEnding(p, frames, t)
    ensures var d' := DeliverAll(p, quits, d, frames);
            && (t == |frames| ==> d'.marks == d.marks + Payloads(p, frames) && !d'.settled)
            && (t < |frames| && EndsWell(p, frames[t]) ==> d'.marks == d.marks + Payloads(p, frames[..t]) + [Complete])
            && (t < |frames| ==> d'.settled && forall failure :: EndsBadly(p, frames[t], failure) ==>
                  d'.marks == d.marks + Payloads(p, frames[..t]) + [Error(failure)])
    decreases |frames|
  {
    hide DeliverOne, Payload, EndsWell, EndsBadly, Terminal, Carries, SaysNothing;
    if t < |frames| {
      var before := DeliverAll(p, quits, d, frames[..t]);
      assert FirstEnding(p, frames[..t], t);
      FramesAreHeard(p, quits, d, frames[..t], t);
      assert frames == frames[..t] + frames[t..];
      DeliverConcat(p, quits, d, frames[..t], frames[t..]);
      StillListening(p, quits, d, frames[..t]);
      FrameIsHeard(p, quits, before, frames[t]);
      LastFrame(p, quits, before, frames[t..]);
    } else if frames != [] {
      var init, last := frames[..|frames| - 1], frames[|frames| - 1];
      assert frames == init + [last];
      assert FirstEnding(p, init, |init|);
      FramesAreHeard(p, quits, d, init, |init|);
      DeliverConcat(p, quits, d, init, [last]);
      StillListening(p, quits, d, init);
      var mid := DeliverAll(p, quits, d, init);
      QuietFrame(p, quits, mid, last);
      OneFrame(p, quits, mid, last);
    }
  }

  lemma {:induction false} StillListening(p: Parser, quits: nat -> bool, d: Delivery, frames: seq<string>)
    requires !d.settled && !d.aborted && !d.ended && (forall n :: !quits(n)) && FirstEnding(p, frames, |frames|)
    ensures var d' := DeliverAll(p, quits, d, frames);
            !d'.settled && !d'.aborted && !d'.ended
    decreases |frames|
  {
    hide DeliverOne, Terminal, Payload;
    if frames != [] {
      assert !Terminal(p, frames[0]);
      QuietFrame(p, quits, d, frames[0]);
      assert FirstEnding(p, frames[1..], |frames[1..]|);
      StillListening(p, quits, DeliverOne(p, quits, d, frames[0]), frames[1..]);
    }
  }

  lemma {:induction false} OneFrame(p: Parser, quits: nat -> bool, d: Delivery, frame: string)
    requires !d.ended
    ensures DeliverAll(p, quits, d, [frame]) == DeliverOne(p, quits, d, frame)
  {
    hide DeliverOne;
    assert [frame][1..] == [];
  }

  lemma {:induction false} LastFrame(p: Parser, quits: nat -> bool, d: Delivery, frames: seq<string>)
    requires frames != [] && !d.ended && !d.settled && !d.aborted && Terminal(p, frames[0])
    ensures DeliverAll(p, quits, d, frames) == DeliverOne(p, quits, d, frames[0])
    ensures DeliverOne(p, quits, d, frames[0]).settled
  {
    hide EndsWell, EndsBadly, Carries, SaysNothing, ActionOf;
    if frames[0] == "" {
      EmptyFrame(p);
    } else {
      ActionMeaning(p, frames[0]);
    }
  }

  /** What is heard of a body nobody unsubscribes from: its frames up to the first terminal one, or how it broke off. */
  ghost predicate BodyHeard(p: Parser, body: string, ending: Ending, marks: seq<Mark>) {
    forall t :: FirstEnding(p, Frames(body), t) ==>
      var frames := Frames(body);
      var heard := [Started] + Payloads(p, frames[..t]);
      if t < |frames| then
        && (EndsWell(p, frames[t]) ==> marks == heard + [Complete])
        && (forall failure :: EndsBadly(p, frames[t], failure) ==> marks == heard + [Error(failure)])
      else marks == heard + [Error(if ending == Closed then StreamClosedEarly else ReadFailed)]
  }

  lemma {:induction false} BodyIsHeard(p: Parser, quits: nat -> bool, body: string, ending: Ending)
    requires forall n :: !quits(n)
    ensures BodyHeard(p, body, ending, BodyMarks(p, quits, Delivery([Started], false, false, false, 0), body, ending))
  {
    hide DeliverAll, Payloads, EndsWell, EndsBadly, FirstEnding, Frames;
    var frames, d := Frames(body), Delivery([Started], false, false, false, 0);
    forall t | FirstEnding(p, frames, t)
      ensures 0 <= t <= |frames|
      ensures t == |frames| ==> frames[..t] == frames
      ensures var after := DeliverAll(p, quits, d, frames);
              && (t == |frames| ==> after.marks == d.marks + Payloads(p, frames) && !after.settled)
              && (t < |frames| && EndsWell(p, frames[t]) ==>
                    after.marks == d.marks + Payloads(p, frames[..t]) + [Complete])
              && (t < |frames| ==> after.settled && forall failure :: EndsBadly(p, frames[t], failure) ==>
                    after.marks == d.marks + Payloads(p, frames[..t]) + [Error(failure)])
    {
      EndingInRange(p, frames, t);
      FramesAreHeard(p, quits, d, frames, t);
    }
  }

  lemma EndingInRange(p: Parser, frames: seq<string>, t: int)
    requires FirstEnding(p, frames, t)
    ensures 0 <= t <= |frames|
  {}

  function Concat(chunks: seq<string>): string {
    if chunks == [] then "" else Concat(chunks[..|chunks| - 1]) + chunks[|chunks| - 1]
  }

  /** All the marks a body causes, as a function of its whole text: the frames, then the missing ending if any. */
  function BodyMarks(p: Parser, quits: nat -> bool, d: Delivery, body: string, ending: Ending): seq<Mark> {
    var after := DeliverAll(p, quits, d, Frames(body));
    if after.settled then after.marks
    else after.marks + [Error(if ending.Closed? then StreamClosedEarly else ReadFailed)]
  }

  // ---- The subscription ------------------------------------------------------------------------

  class Subscription {
    const parser: Parser
    const quits: nat -> bool         // the handler of the n-th data callback unsubscribes
    const quitsAtAwait: nat -> bool  // the caller unsubscribes during the n-th await
    var state: Delivery
    var buf: string
    var awaits: nat

    ghost predicate Valid()
      reads this
    {
      Orderly(state) && (state.settled ==> state.aborted || state.ended)
    }

    constructor (parser: Parser, quits: nat -> bool, quitsAtAwait: nat -> bool)
      ensures Valid() && state == Delivery([], false, false, false, 0) && awaits == 0
      ensures this.parser == parser && this.quits == quits && this.quitsAtAwait == quitsAtAwait
    {
      this.parser, this.quits, this.quitsAtAwait := parser, quits, quitsAtAwait;
      state, buf, awaits := Delivery([], false, false, false, 0), "", 0;
    }

    /** safeError / safeComplete: the first to run settles the subscription, the rest do nothing. */
    method SafeSettle(m: Mark)
      modifies this`state
      ensures state == Settle(old(state), m)
    {
      if state.settled { return; }
      state := state.(settled := true);
      state := state.(marks := state.marks + [m]);
    }

    method CallUnsubscribe()
      modifies this`state
      ensures state == Unsubscribe(old(state))
    {
      if state.settled { return; }
      state := state.(settled := true, aborted := true, marks := state.marks + [Unsubscribed]);
    }

    /** A suspension point: the caller may unsubscribe meanwhile. */
    method Await()
      requires Valid()
      modifies this`state, this`awaits
      ensures Valid() && awaits == old(awaits) + 1
      ensures state == if quitsAtAwait(old(awaits)) then Unsubscribe(old(state)) else old(state)
    {
      if !state.settled { OrderlyMark(state, Unsubscribed); }
      if quitsAtAwait(awaits) { CallUnsubscribe(); }
      awaits := awaits + 1;
    }

    /** Cut frames out of the buffer until none is complete or one settles the subscription. */
    method DrainSseFrames() returns (settled: bool)
      requires !state.ended
      modifies this`state, this`buf
      ensures state == DeliverAll(parser, quits, old(state), Frames(old(buf)))
      ensures settled == state.ended
      ensures !settled ==> buf == Remainder(old(buf))
    {
      ghost var goal := DeliverAll(parser, quits, state, Frames(buf));
      while true
        invariant !state.ended
        invariant DeliverAll(parser, quits, state, Frames(buf)) == goal
        invariant Remainder(buf) == Remainder(old(buf))
        decreases |buf|
      {
        var idx := SeparatorAt(buf);
        if idx.None? { return false; }
        ghost var before := state;
        var chunk := buf[..idx.value];
        assert Frames(buf) == [chunk] + Frames(buf[idx.value + 2..]);
        buf := buf[idx.value + 2..];
        HandleFrame(chunk);
        assert DeliverAll(parser, quits, before, [chunk] + Frames(buf)) == DeliverAll(parser, quits, state,
            Frames(buf));
        if state.ended { return true; }
      }
    }

    /** parseSseChunk and what the drain loop does with its answer. */
    method HandleFrame(chunk: string)
      requires !state.ended
      modifies this`state
      ensures state == DeliverOne(parser, quits, old(state), chunk)
      ensures !old(state).settled && !old(state).aborted ==> Heard(parser, quits, old(state), chunk, state)
    {
      if !state.settled && !state.aborted { FrameIsHeard(parser, quits, state, chunk); }
      if chunk == "" { return; }
      var action := ActionOf(parser, chunk);
      match action {
        case Ignore =>
        case Finish =>
          SafeSettle(Complete);
          state := state.(ended := true);
        case Fail(failure) =>
          SafeSettle(Error(failure));
          state := state.(ended := true);
        case Deliver(v) =>
          if state.aborted { return; }
          var n := state.count;
          state := state.(marks := state.marks + [Data(v)], count := n + 1);
          if quits(n) { CallUnsubscribe(); }
      }
    }

    /**
     Read chunks until a terminal frame, an unsubscribe, or the end of the body. Unless the caller
     unsubscribes during an await, the marks are those of the concatenated body.
     */
    method ReadTunnelSseStream(chunks: seq<string>) returns (settled: bool)
      requires Valid() && !state.ended
      modifies this
      ensures Valid() && settled == state.ended && awaits >= old(awaits)
      ensures old(state).marks <= state.marks
      ensures state.aborted ==>
                old(state).aborted || Asked(quits, old(state).count, state.count) ||
                Asked(quitsAtAwait, old(awaits), awaits)
      ensures (forall n :: n >= old(awaits) ==> !quitsAtAwait(n)) ==>
                var whole := DeliverAll(parser, quits, old(state), Frames(Concat(chunks)));
                state.marks == whole.marks && state.settled == whole.settled && state.aborted == whole.aborted
    {
      hide Orderly, DeliverAll, Frames, Remainder;
      buf := "";
      ghost var start := state;
      ghost var quiet := forall n :: n >= awaits ==> !quitsAtAwait(n);
      ghost var awaits0 := awaits;
      NothingRead(parser, quits, start);
      var i := 0;
      assert chunks[..0] == [];
      while true
        invariant 0 <= i <= |chunks| && awaits >= awaits0
        invariant Valid() && !state.ended && start.marks <= state.marks && start.count <= state.count
        invariant state.aborted ==>
                    start.aborted || Asked(quits, start.count, state.count) || Asked(quitsAtAwait, awaits0, awaits)
        invariant quiet ==> Caught(parser, quits, start, Concat(chunks[..i]), state, buf)
        decreases |chunks| - i
      {
        if state.aborted {
          AbortedIsSettled(state);
          ConcatSplit(chunks, i);
          Silenced(parser, quits, start, Concat(chunks[..i]), Concat(chunks[i..]), state);
          return false;
        }
        Await();
        if i == |chunks| {
          assert chunks[..i] == chunks;
          return false;
        }
        ghost var before, left := state, buf;
        buf := buf + chunks[i];
        DeliverAllIsOrderly(parser, quits, state, Frames(buf));
        DeliverAllAborts(parser, quits, state, Frames(buf));
        settled := DrainSseFrames();
        CaughtUp(parser, quits, start, Concat(chunks[..i]), before, left, chunks[i]);
        assert chunks[..i + 1][..i] == chunks[..i];
        i := i + 1;
        if settled {
          AbortedIsSettled(state);
          ConcatSplit(chunks, i);
          Silenced(parser, quits, start, Concat(chunks[..i]), Concat(chunks[i..]), state);
          return true;
        }
      }
    }

    /**
     One subscription from request to end. Exactly one of complete, error and the caller's own unsubscribe ends
     it, the last only if the caller did unsubscribe; nothing but onStarted follows.
     */
    method PumpTunnelSse(response: Response)
      requires Valid() && state == Delivery([], false, false, false, 0)
      modifies this
      ensures Orderly(state) && state.settled
      ensures state.aborted ==> Asked(quits, 0, state.count) || Asked(quitsAtAwait, old(awaits), awaits)
      ensures if state.aborted then EndsOnlyWith(state.marks, Unsubscribed)
              else exists m: Mark :: (m.Complete? || m.Error?) && EndsOnlyWith(state.marks, m)
      ensures response.Body? && (forall n :: n >= old(awaits) ==> !quitsAtAwait(n)) ==>
                state.marks == BodyMarks(parser, quits, Delivery([Started], false, false, false, 0),
                                         Concat(response.chunks), response.ending)
      ensures (forall n :: !quits(n)) && (forall n :: n >= old(awaits) ==> !quitsAtAwait(n)) ==>
                match response
                case NoRequest => state.marks == [Error(BadRequest)]
                case FetchError => state.marks == [Error(FetchFailed)]
                case NotOk => state.marks == [Error(BadStatus)]
                case NoBody => state.marks == [Started, Error(EmptyBody)]
                case Body(chunks, ending) => BodyHeard(parser, Concat(chunks), ending, state.marks)
    {
      Pump(response);
      EndsOneWay(state);
      if response.Body? && forall n :: !quits(n) {
        BodyIsHeard(parser, quits, Concat(response.chunks), response.ending);
      }
    }

    /** The whole pump: request, response, stream, and the final settling. */
    method Pump(response: Response)
      requires Valid() && state == Delivery([], false, false, false, 0)
      modifies this
      ensures Orderly(state) && state.settled
      ensures state.aborted ==> Asked(quits, 0, state.count) || Asked(quitsAtAwait, old(awaits), awaits)
      ensures response.Body? && (forall n :: n >= old(awaits) ==> !quitsAtAwait(n)) ==>
                state.marks == BodyMarks(parser, quits, Delivery([Started], false, false, false, 0),
                                         Concat(response.chunks), response.ending)
      ensures (forall n :: n >= old(awaits) ==> !quitsAtAwait(n)) ==>
                && (response.NoRequest? ==> state.marks == [Error(BadRequest)])
                && (response.FetchError? ==> state.marks == [Error(FetchFailed)])
                && (response.NotOk? ==> state.marks == [Error(BadStatus)])
                && (response.NoBody? ==> state.marks == [Started, Error(EmptyBody)])
    {
      hide DeliverAll, Frames, Orderly;
      ghost var awaits0 := awaits;
      if response.NoRequest? {
        SettleIsOrderly(state, Error(BadRequest));
        SafeSettle(Error(BadRequest));
        return;
      }
      Await();
      assert state.aborted ==> quitsAtAwait(awaits0);
      if response.FetchError? {
        SettleIsOrderly(state, if state.aborted then Complete else Error(FetchFailed));
        SafeSettle(if state.aborted then Complete else Error(FetchFailed));
        return;
      }
      if response.NotOk? {
        Await();
        SettleIsOrderly(state, Error(BadStatus));
        SafeSettle(Error(BadStatus));
        return;
      }
      StartedIsOrderly(state);
      state := state.(marks := state.marks + [Started]);
      if response.NoBody? {
        SettleIsOrderly(state, Error(EmptyBody));
        SafeSettle(Error(EmptyBody));
        return;
      }
      ghost var begun := state;
      assert [] + [Started] == [Started];
      var settled := ReadTunnelSseStream(response.chunks);
      if settled {
        AbortedIsSettled(state);
        return;
      }
      var failure := if response.ending.Closed? then StreamClosedEarly else ReadFailed;
      if state.aborted { AbortedIsSettled(state); }
      SettleIsOrderly(state, if state.aborted then Complete else Error(failure));
      SafeSettle(if state.aborted then Complete else Error(failure));
    }
  }

  lemma {:induction false} SettleIsOrderly(d: Delivery, m: Mark)
    requires Orderly(d) && (m.Complete? || m.Error?)
    ensures Orderly(Settle(d, m)) && Settle(d, m).settled
  {
    if !d.settled {
      OrderlyMark(d, m);
    }
  }

  lemma {:induction false} StartedIsOrderly(d: Delivery)
    requires Orderly(d)
    ensures Orderly(d.(marks := d.marks + [Started]))
  {
    var all := d.marks + [Started];
    assert forall i :: 0 <= i < |d.marks| ==> all[i] == d.marks[i];
  }

  /** After the prefix `read`, the state and buffer are those of delivering `read` in one piece. */
  ghost predicate Caught(p: Parser, quits: nat -> bool, start: Delivery, read: string, d: Delivery, buf: string) {
    d == DeliverAll(p, quits, start, Frames(read)) && buf == Remainder(read)
  }

  lemma NothingRead(p: Parser, quits: nat -> bool, start: Delivery)
    ensures Caught(p, quits, start, "", start, "")
  {}

  lemma {:induction false} CaughtUp(p: Parser, quits: nat -> bool, start: Delivery, read: string, d: Delivery,
                                    buf: string, chunk: string)
    ensures Caught(p, quits, start, read, d, buf) ==>
              && DeliverAll(p, quits, d, Frames(buf + chunk)) == DeliverAll(p, quits, start, Frames(read + chunk))
              && Remainder(buf + chunk) == Remainder(read + chunk)
  {
    FramesOfConcat(read, chunk);
    DeliverConcat(p, quits, start, Frames(read), Frames(Remainder(read) + chunk));
  }

  /** Once settled, the rest of the body adds nothing the caller can see. */
  lemma {:induction false} Silenced(p: Parser, quits: nat -> bool, start: Delivery, read: string, rest: string,
                                    d: Delivery)
    requires Orderly(d) && d.settled && (d.settled ==> d.aborted || d.ended)
    ensures d == DeliverAll(p, quits, start, Frames(read)) ==>
              var whole := DeliverAll(p, quits, start, Frames(read + rest));
              d.marks == whole.marks && whole.settled && d.aborted == whole.aborted
  {
    if d == DeliverAll(p, quits, start, Frames(read)) {
      FramesOfConcat(read, rest);
      DeliverConcat(p, quits, start, Frames(read), Frames(Remainder(read) + rest));
      DeliverAllIsOrderly(p, quits, d, Frames(Remainder(read) + rest));
    }
  }

  lemma {:induction false} ConcatSplit(chunks: seq<string>, i: nat)
    requires i <= |chunks|
    ensures Concat(chunks) == Concat(chunks[..i]) + Concat(chunks[i..])
    decreases |chunks| - i
  {
    if i == |chunks| {
      assert chunks[..i] == chunks;
    } else {
      ConcatSplit(chunks[..|chunks| - 1], i);
      assert chunks[..|chunks| - 1][..i] == chunks[..i];
      assert chunks[i..][..|chunks[i..]| - 1] == chunks[..|chunks| - 1][i..];
    }
  }

  // ---- Main results -----------------------------------------------------------------------------

  /**
   An orderly, settled subscription heard exactly one of complete, error and its own unsubscribe; data only
   before it.
   */
  lemma {:induction false} SettlesExactlyOnce(d: Delivery)
    requires Orderly(d) && d.settled
    ensures exists i :: 0 <= i < |d.marks| && Settles(d.marks[i]) &&
                        (forall j :: 0 <= j < |d.marks| && Settles(d.marks[j]) ==> j == i) &&
                        (forall j :: i < j < |d.marks| ==> d.marks[j] == Started)
  {
    var i :| 0 <= i < |d.marks| && Settles(d.marks[i]);
  }

  /** `m` is in the sequence once, no other ending is, and after it comes at most onStarted. */
  ghost predicate EndsOnlyWith(marks: seq<Mark>, m: Mark) {
    exists i :: 0 <= i < |marks| && marks[i] == m &&
                (forall j :: 0 <= j < |marks| && Settles(marks[j]) ==> j == i) &&
                (forall j :: i < j < |marks| ==> marks[j] == Started)
  }

  /**
   Whether it was aborted decides which ending a subscription heard: its own unsubscribe, or one of complete
   and error.
   */
  lemma {:induction false} EndsOneWay(d: Delivery)
    requires Orderly(d) && d.settled
    ensures if d.aborted then EndsOnlyWith(d.marks, Unsubscribed)
            else exists m: Mark :: (m.Complete? || m.Error?) && EndsOnlyWith(d.marks, m)
  {
    SettlesExactlyOnce(d);
    var i :| 0 <= i < |d.marks| && Settles(d.marks[i]) &&
             (forall j :: 0 <= j < |d.marks| && Settles(d.marks[j]) ==> j == i) &&
             (forall j :: i < j < |d.marks| ==> d.marks[j] == Started);
    assert EndsOnlyWith(d.marks, d.marks[i]);
    if d.aborted {
      var k :| 0 <= k < |d.marks| && d.marks[k] == Unsubscribed;
      assert Settles(d.marks[k]);
    } else {
      assert d.marks[i] != Unsubscribed;
    }
  }

  /** The reader's own order of work: after each chunk, drain what is complete; stop when settled. */
  function FeedAll(p: Parser, quits: nat -> bool, d: Delivery, buf: string, chunks: seq<string>): Delivery
    decreases |chunks|
  {
    if chunks == [] || d.ended || d.aborted then d
    else FeedAll(p, quits, DeliverAll(p, quits, d, Frames(buf + chunks[0])), Remainder(buf + chunks[0]), chunks[1..])
  }

  /** For every way to cut a body into chunks, feeding them one by one makes the callbacks of the whole body. */
  lemma {:induction false} ChunkingIsInvisible(p: Parser, quits: nat -> bool, d: Delivery, buf: string,
                                               chunks: seq<string>)
    requires Orderly(d) && (d.settled ==> d.aborted || d.ended) && SeparatorAt(buf).None?
    ensures var fed, whole := FeedAll(p, quits, d, buf, chunks), DeliverAll(p, quits, d, Frames(buf + Concat(chunks)));
            fed.marks == whole.marks && fed.settled == whole.settled
    decreases |chunks|
  {
    hide Orderly;
    var body := buf + Concat(chunks);
    if chunks == [] {
      assert body == buf;
    } else if d.ended || d.aborted {
      AbortedIsSettled(d);
      DeliverAllIsOrderly(p, quits, d, Frames(body));
    } else {
      ConcatSplit(chunks, 1);
      assert chunks[..1][..0] == [] && Concat(chunks[..1]) == "" + chunks[0];
      assert body == (buf + chunks[0]) + Concat(chunks[1..]);
      FramesOfConcat(buf + chunks[0], Concat(chunks[1..]));
      DeliverConcat(p, quits, d, Frames(buf + chunks[0]), Frames(Remainder(buf + chunks[0]) + Concat(chunks[1..])));
      DeliverAllIsOrderly(p, quits, d, Frames(buf + chunks[0]));
      RemainderIsCut(buf + chunks[0]);
      ChunkingIsInvisible(p, quits, DeliverAll(p, quits, d, Frames(buf + chunks[0])), Remainder(buf + chunks[0]),
                          chunks[1..]);
    }
  }

  lemma {:induction false} AbortedIsSettled(d: Delivery)
    requires Orderly(d) && (d.aborted || d.ended)
    ensures d.settled
  {
    if d.aborted {
      var i :| 0 <= i < |d.marks| && d.marks[i] == Unsubscribed;
      assert Settles(d.marks[i]);
    }
  }
}
