/**
 The per-client backlog of the event stream: a bounded queue that drops its oldest event, and a
 consumer that announces drops before it forwards the next event. The consumer can be suspended
 while an announcement is on its way to the client, and events keep arriving meanwhile.
 */
module EventStream {
  import opened Common

  /**
   `published` and `delivered` are the whole history; `delivered` lists positions in `published`.
   `announcing` is the position of the event held back while the announcement of `announced`
   drops is being sent. `reported` adds up the announcements; `forgotten` the drops that happened
   while one was being sent.
   */
  datatype Stream<E> = Stream(
    capacity: nat, queue: seq<E>, droppedSinceLast: nat, announcing: Option<int>, announced: nat,
    published: seq<E>, delivered: seq<int>, dropped: nat, reported: nat, forgotten: nat)

  datatype Step<E> = Enqueue(event: E) | Take | Resume

  ghost predicate Enabled<E>(s: Stream<E>, step: Step<E>)
  {
    match step
    case Enqueue(_) => true
    case Take => s.announcing.None? && s.queue != []
    case Resume => s.announcing.Some?
  }

  /** A step that is not enabled leaves the stream alone. */
  function Next<E>(s: Stream<E>, step: Step<E>): Stream<E>
  {
    match step
    case Enqueue(e) =>
      if |s.queue| < s.capacity then s.(queue := s.queue + [e], published := s.published + [e])
      else
        var rest := if s.queue == [] then [] else s.queue[1..];
        s.(queue := (if |rest| < s.capacity then rest + [e] else rest), published := s.published + [e],
           dropped := s.dropped + 1, droppedSinceLast := s.droppedSinceLast + 1,
           forgotten := if s.announcing.Some? then s.forgotten + 1 else s.forgotten)
    case Take =>
      var position := |s.published| - |s.queue|;
      if s.announcing.Some? || s.queue == [] then s
      else if s.droppedSinceLast > 0
      then s.(queue := s.queue[1..], announcing := Some(position), announced := s.droppedSinceLast,
              reported := s.reported + s.droppedSinceLast)
      else s.(queue := s.queue[1..], delivered := s.delivered + [position])
    case Resume =>
      if s.announcing.None? then s
      else s.(announcing := None, droppedSinceLast := 0, delivered := s.delivered + [s.announcing.value])
  }

  /** Positions already taken off the queue, in order, all before what is still queued. */
  ghost predicate InOrder(taken: seq<int>, bound: int)
  {
    && (forall i, j :: 0 <= i < j < |taken| ==> taken[i] < taken[j])
    && forall i :: 0 <= i < |taken| ==> 0 <= taken[i] < bound
  }

  ghost function Taken<E>(s: Stream<E>): seq<int>
  {
    s.delivered + if s.announcing.Some? then [s.announcing.value] else []
  }

  ghost predicate Sound<E>(s: Stream<E>)
  {
    && s.capacity > 0 && |s.queue| <= s.capacity && |s.queue| <= |s.published|
    && s.queue == s.published[|s.published| - |s.queue|..]
    && InOrder(Taken(s), |s.published| - |s.queue|)
    && |Taken(s)| + s.dropped + |s.queue| == |s.published|
  }

  /**
   Announced plus not yet announced drops are the drops, except for those that arrived while an
   announcement was being sent.
   */
  ghost predicate Accounted<E>(s: Stream<E>)
  {
    if s.announcing.None? then s.reported + s.droppedSinceLast + s.forgotten == s.dropped
    else s.announced <= s.droppedSinceLast && s.reported + s.forgotten == s.dropped
  }

  lemma StepKeepsSound<E>(s: Stream<E>, step: Step<E>)
    requires Sound(s) && Enabled(s, step)
    ensures Sound(Next(s, step))
  {
    var s' := Next(s, step);
    if step.Enqueue? && |s.queue| < s.capacity {
      assert s'.queue == s'.published[|s'.published| - |s'.queue|..];
      assert Taken(s') == Taken(s);
    } else if step.Enqueue? {
      assert Taken(s') == Taken(s);
      assert s'.queue == s'.published[|s'.published| - |s'.queue|..];
    } else if step.Take? {
      assert Taken(s') == Taken(s) + [|s.published| - |s.queue|];
    } else {
      assert Taken(s') == Taken(s);
    }
  }

  lemma StepKeepsAccount<E>(s: Stream<E>, step: Step<E>)
    requires Sound(s) && Accounted(s) && Enabled(s, step)
    ensures Accounted(Next(s, step))
  {
  }

  ghost predicate Possible<E>(s: Stream<E>, steps: seq<Step<E>>)
    decreases steps
  {
    steps == [] || (Enabled(s, steps[0]) && Possible(Next(s, steps[0]), steps[1..]))
  }

  ghost function After<E>(s: Stream<E>, steps: seq<Step<E>>): Stream<E>
    decreases steps
  {
    if steps == [] then s else After(Next(s, steps[0]), steps[1..])
  }

  function NewStream<E>(capacity: nat): Stream<E>
  {
    Stream(capacity, [], 0, None, 0, [], [], 0, 0, 0)
  }

  /**
   Over every interleaving: the backlog is the tail of what was published, events leave in order,
   taken, dropped and queued events are all that was published, and every drop is reported, still
   counted, or forgotten.
   */
  lemma {:induction false} StreamInvariants<E>(s: Stream<E>, steps: seq<Step<E>>)
    requires Sound(s) && Accounted(s) && Possible(s, steps)
    ensures Sound(After(s, steps)) && Accounted(After(s, steps))
    decreases steps
  {
    if steps != [] {
      StepKeepsSound(s, steps[0]);
      StepKeepsAccount(s, steps[0]);
      StreamInvariants(Next(s, steps[0]), steps[1..]);
    }
  }

  /** An event arrives at a full queue while an announcement is on its way. */
  ghost predicate Forgetful<E>(s: Stream<E>, step: Step<E>)
  {
    step.Enqueue? && s.announcing.Some? && |s.queue| >= s.capacity
  }

  ghost predicate NeverForgetful<E>(s: Stream<E>, steps: seq<Step<E>>)
    decreases steps
  {
    steps == [] || (!Forgetful(s, steps[0]) && NeverForgetful(Next(s, steps[0]), steps[1..]))
  }

  lemma {:induction false} ForgottenCounts<E>(s: Stream<E>, steps: seq<Step<E>>)
    ensures After(s, steps).forgotten >= s.forgotten
    ensures After(s, steps).forgotten == s.forgotten <==> NeverForgetful(s, steps)
    decreases steps
  {
    if steps != [] {
      ForgottenCounts(Next(s, steps[0]), steps[1..]);
    }
  }

  /**
   The drops told to the client plus the counter add up to the drops exactly when no event met a
   full queue during an announcement: the reset after the announcement discards such a drop.
   */
  lemma ReportedDropsExactly<E>(capacity: nat, steps: seq<Step<E>>)
    requires capacity > 0 && Possible(NewStream(capacity), steps)
    requires After(NewStream(capacity), steps).announcing.None?
    ensures var s := After(NewStream(capacity), steps);
            s.reported + s.droppedSinceLast == s.dropped <==> NeverForgetful(NewStream(capacity), steps)
  {
    StreamInvariants(NewStream(capacity), steps);
    ForgottenCounts(NewStream(capacity), steps);
  }

  /** A run can be extended by an enabled step. */
  lemma {:induction false} OneMore<E>(s: Stream<E>, steps: seq<Step<E>>, step: Step<E>)
    requires Possible(s, steps) && Enabled(After(s, steps), step)
    ensures Possible(s, steps + [step]) && After(s, steps + [step]) == Next(After(s, steps), step)
    decreases steps
  {
    if steps == [] {
      assert ([] + [step])[1..] == [];
    } else {
      OneMore(Next(s, steps[0]), steps[1..], step);
      assert (steps + [step])[1..] == steps[1..] + [step];
    }
  }

  /** As many events as the queue holds, with nobody reading. */
  lemma {:induction false} Fill<E>(capacity: nat, e: E, k: nat) returns (steps: seq<Step<E>>)
    requires k <= capacity
    ensures Possible(NewStream(capacity), steps)
    ensures var s := After(NewStream(capacity), steps);
            |s.queue| == k && s == NewStream(capacity).(queue := s.queue, published := s.published)
    decreases k
  {
    steps := [];
    if k > 0 {
      var fewer := Fill(capacity, e, k - 1);
      OneMore(NewStream(capacity), fewer, Enqueue(e));
      steps := fewer + [Enqueue(e)];
    }
  }

  /** The queue overflows, and overflows again while the first drop is announced: the second is never reported. */
  lemma OverflowTwice<E>(s: Stream<E>, e: E)
    requires |s.queue| == s.capacity > 0 && s.announcing.None?
    requires s.dropped == s.droppedSinceLast == s.reported == 0
    ensures var s1 := Next(s, Enqueue(e));
            var s2 := Next(s1, Take);
            var s3 := Next(s2, Enqueue(e));
            var s4 := Next(s3, Enqueue(e));
            var s5 := Next(s4, Resume);
            && Enabled(s1, Take) && Enabled(s4, Resume) && s5.announcing.None?
            && s5.dropped == 2 && s5.reported == 1 && s5.droppedSinceLast == 0
  {
  }

  /** Whatever the capacity, there is a run after which a drop is neither reported nor counted. */
  lemma DropForgotten<E>(capacity: nat, e: E) returns (steps: seq<Step<E>>)
    requires capacity > 0
    ensures Possible(NewStream(capacity), steps)
    ensures var s := After(NewStream(capacity), steps);
            s.announcing.None? && s.reported + s.droppedSinceLast < s.dropped
  {
    var start: Stream<E> := NewStream(capacity);
    steps := Fill(capacity, e, capacity);
    OverflowTwice(After(start, steps), e);
    OneMore(start, steps, Enqueue(e));
    steps := steps + [Enqueue(e)];
    OneMore(start, steps, Take);
    steps := steps + [Take];
    OneMore(start, steps, Enqueue(e));
    steps := steps + [Enqueue(e)];
    OneMore(start, steps, Enqueue(e));
    steps := steps + [Enqueue(e)];
    OneMore(start, steps, Resume);
    steps := steps + [Resume];
  }

  /** The queue and counter that the producer callback and the consumer loop share. */
  class ClientQueue<E> {
    const capacity: nat
    var queue: seq<E>
    var droppedSinceLast: nat
    var announcing: Option<int>
    var announced: nat
    var published: seq<E>
    var delivered: seq<int>
    var dropped: nat
    var reported: nat
    ghost var forgotten: nat

    constructor (maxsize: nat)
      requires maxsize > 0
      ensures View() == NewStream(maxsize) && Sound(View()) && Accounted(View())
    {
      capacity, queue, droppedSinceLast, announcing, announced := maxsize, [], 0, None, 0;
      published, delivered, dropped, reported, forgotten := [], [], 0, 0, 0;
    }

    ghost function View(): Stream<E>
      reads this
    {
      Stream(capacity, queue, droppedSinceLast, announcing, announced, published, delivered, dropped, reported,
             forgotten)
    }

    /** The callback: put, or drop the oldest and put again. */
    method OnBusEvent(event: E)
      requires Sound(View()) && Accounted(View())
      modifies this
      ensures View() == Next(old(View()), Enqueue(event)) && Sound(View()) && Accounted(View())
    {
      StepKeepsSound(View(), Enqueue(event));
      StepKeepsAccount(View(), Enqueue(event));
      published := published + [event];
      if |queue| < capacity {
        queue := queue + [event];
      } else {
        if queue != [] {
          queue := queue[1..];
        }
        droppedSinceLast, dropped := droppedSinceLast + 1, dropped + 1;
        forgotten := if announcing.Some? then forgotten + 1 else forgotten;
        if |queue| < capacity {
          queue := queue + [event];
        }
      }
    }

    /** The loop up to the first suspension: forward the event, or announce the drops first. */
    method TakeNext() returns (event: E)
      requires Sound(View()) && Accounted(View()) && announcing.None? && queue != []
      modifies this
      ensures View() == Next(old(View()), Take) && Sound(View()) && Accounted(View())
      ensures event == old(published)[|old(published)| - |old(queue)|]
      ensures old(droppedSinceLast) > 0 ==>
                announcing == Some(|old(published)| - |old(queue)|) && announced == old(droppedSinceLast)
      ensures old(droppedSinceLast) == 0 ==> delivered == old(delivered) + [|old(published)| - |old(queue)|]
    {
      StepKeepsSound(View(), Take);
      StepKeepsAccount(View(), Take);
      var position := |published| - |queue|;
      event := queue[0];
      queue := queue[1..];
      if droppedSinceLast > 0 {
        announcing, announced := Some(position), droppedSinceLast;
        reported := reported + droppedSinceLast;
      } else {
        delivered := delivered + [position];
      }
    }

    /** The loop resumed after an announcement: reset the counter, forward the event held back. */
    method ResumeAfterAnnouncement()
      requires Sound(View()) && Accounted(View()) && announcing.Some?
      modifies this
      ensures View() == Next(old(View()), Resume) && Sound(View()) && Accounted(View())
    {
      StepKeepsSound(View(), Resume);
      StepKeepsAccount(View(), Resume);
      droppedSinceLast := 0;
      delivered := delivered + [announcing.value];
      announcing := None;
    }
  }
}
