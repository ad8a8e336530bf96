/** The bounded queue between tape processors: pushing never blocks, popping waits on a semaphore.
    Every step below is one section under a mutex, or the unguarded write of the size; producers and
    consumers may interleave them in any order. */
module ThreadSafeQueue {
  import opened Common

  /** `past` counts consumers that passed the semaphore and have not yet looked at the queue. The
      last four fields are histories. */
  datatype Queue<T> = Queue(
    elements: seq<T>,
    size: int,
    permits: nat,
    past: nat,
    accepted: seq<T>,
    popped: seq<T>,
    rejectedPushes: nat,
    emptyPops: nat)

  datatype Step<T> = Push(element: T) | Acquire | PopLocked | SetSize(size: int)

  function Init<T>(size: int): (q: Queue<T>) { Queue([], size, 0, 0, [], [], 0, 0) }

  /** The size is compared as an unsigned number, so a negative one is no bound. */
  function Unsigned(n: int): (u: nat) { n % 0x1_0000_0000 }

  function OnPush<T>(q: Queue<T>, element: T): (r: Queue<T>) {
    if |q.elements| < Unsigned(q.size) then
      q.(elements := q.elements + [element], permits := q.permits + 1, accepted := q.accepted + [element])
    else q.(permits := q.permits + 1, rejectedPushes := q.rejectedPushes + 1)
  }

  function OnPop<T>(q: Queue<T>): (r: Queue<T>)
    requires q.past > 0
  {
    if q.elements == [] then q.(past := q.past - 1, emptyPops := q.emptyPops + 1)
    else q.(elements := q.elements[1..], past := q.past - 1, popped := q.popped + [q.elements[0]])
  }

  function Next<T>(q: Queue<T>, step: Step<T>): (r: Option<Queue<T>>) {
    match step
    case Push(element) => Some(OnPush(q, element))
    case Acquire => if q.permits > 0 then Some(q.(permits := q.permits - 1, past := q.past + 1)) else None
    case PopLocked => if q.past > 0 then Some(OnPop(q)) else None
    case SetSize(size) => Some(q.(size := size))
  }

  function Run<T>(q: Queue<T>, steps: seq<Step<T>>): (r: Option<Queue<T>>)
    decreases |steps|
  {
    if steps == [] then Some(q)
    else match Next(q, steps[0])
      case None => None
      case Some(n) => Run(n, steps[1..])
  }

  ghost predicate Inv<T>(q: Queue<T>) {
    && q.permits + q.past - |q.elements| == q.rejectedPushes - q.emptyPops
    && q.permits + q.past >= |q.elements|
    && q.accepted == q.popped + q.elements
  }

  lemma InvNext<T>(q: Queue<T>, step: Step<T>)
    requires Inv(q) && Next(q, step).Some?
    ensures Inv(Next(q, step).value)
  {
    var n := Next(q, step).value;
    if step.Push? && |q.elements| < Unsigned(q.size) {
      assert q.popped + (q.elements + [step.element]) == q.popped + q.elements + [step.element];
    } else if step.PopLocked? && q.elements != [] {
      assert q.popped + q.elements == q.popped + [q.elements[0]] + q.elements[1..];
    }
  }

  lemma {:induction false} InvRun<T>(q: Queue<T>, steps: seq<Step<T>>)
    requires Inv(q) && Run(q, steps).Some?
    ensures Inv(Run(q, steps).value)
    decreases |steps|
  {
    if steps == [] {
    } else {
      InvNext(q, steps[0]);
      InvRun(Next(q, steps[0]).value, steps[1..]);
    }
  }

  /** In every reachable state permits plus consumers past the semaphore exceed the length by the
      rejected pushes less the empty pops; a consumer that must wait finds nothing it could have had;
      and elements leave in the order in which they were accepted. */
  lemma Conservation<T>(size: int, steps: seq<Step<T>>)
    requires Run(Init(size), steps).Some?
    ensures var q: Queue<T> := Run(Init(size), steps).value;
      && q.permits + q.past - |q.elements| == q.rejectedPushes - q.emptyPops
      && (q.permits == 0 && q.past == 0 ==> q.elements == [])
      && q.popped <= q.accepted && q.accepted[|q.popped|..] == q.elements
      && q.emptyPops <= q.rejectedPushes
  {
    InvRun<T>(Init(size), steps);
  }

  /** With one size throughout, the queue never holds more than that. */
  lemma {:induction false} LengthBounded<T>(q: Queue<T>, steps: seq<Step<T>>)
    requires |q.elements| <= Unsigned(q.size) && Run(q, steps).Some?
    requires forall i | 0 <= i < |steps| :: !steps[i].SetSize?
    ensures |Run(q, steps).value.elements| <= Unsigned(q.size)
    decreases |steps|
  {
    if steps == [] {
    } else {
      LengthBounded(Next(q, steps[0]).value, steps[1..]);
    }
  }

  /** With a size that is not negative, a push takes its element if and only if fewer are queued; it goes to
      the end, and there is one permit more in either case. */
  lemma PushTakesIff<T>(q: Queue<T>, element: T)
    requires 0 <= q.size <= 0x7FFF_FFFF
    ensures var n := OnPush(q, element);
      && n.permits == q.permits + 1 && n.past == q.past && n.size == q.size && n.popped == q.popped
      && (|q.elements| < q.size ==> n.elements == q.elements + [element] && n.accepted == q.accepted + [element])
      && (|q.elements| >= q.size ==> n.elements == q.elements && n.accepted == q.accepted)
      && n.rejectedPushes == q.rejectedPushes + (if |q.elements| < q.size then 0 else 1)
  {}

  function Pushed<T>(steps: seq<Step<T>>): (r: seq<T>)
    ensures |r| <= |steps|
  {
    if steps == [] then [] else (if steps[0].Push? then [steps[0].element] else []) + Pushed(steps[1..])
  }

  /** Whatever the interleaving, as long as no more were pushed than fit nothing is lost: what was popped and
      what is queued is all that was pushed, in order. */
  lemma {:induction false} AllTakenWhenTheyFit<T>(q: Queue<T>, steps: seq<Step<T>>)
    requires Inv(q) && Run(q, steps).Some? && 0 <= q.size <= 0x7FFF_FFFF
    requires forall i | 0 <= i < |steps| :: !steps[i].SetSize?
    requires |q.elements| + |Pushed(steps)| <= q.size
    ensures var n := Run(q, steps).value;
      n.popped + n.elements == q.popped + q.elements + Pushed(steps) && n.rejectedPushes == q.rejectedPushes
    decreases |steps|
  {
    if steps == [] {
    } else {
      var n := Next(q, steps[0]).value;
      InvNext(q, steps[0]);
      if steps[0].Push? {
        PushTakesIff(q, steps[0].element);
        assert n.accepted + Pushed(steps[1..]) == q.accepted + ([steps[0].element] + Pushed(steps[1..]));
      } else {
        assert [] + Pushed(steps[1..]) == Pushed(steps[1..]);
      }
      AllTakenWhenTheyFit(n, steps[1..]);
    }
  }

  // ---------------------------------------------------------------------------------------------
  // The classes

  /** Starts at one; the queue takes that one in its constructor. */
  class OrkSemaphore {
    var count: nat

    constructor (count: nat)
      ensures this.count == count
    {
      this.count := count;
    }

    method Release()
      modifies this
      ensures count == old(count) + 1
    {
      count := count + 1;
    }

    /** The state in which the wait is over. */
    method Acquire()
      requires count > 0
      modifies this
      ensures count == old(count) - 1
    {
      count := count - 1;
    }

    /** The wait with a timeout ends either way, and does not say which. */
    method AcquireTimed()
      modifies this
      ensures count == if old(count) > 0 then old(count) - 1 else 0
    {
      if count > 0 {
        count := count - 1;
      }
    }
  }

  class BoundedQueue<T> {
    var size: int
    var queue: seq<T>
    var semaphore: OrkSemaphore
    ghost var past: nat
    ghost var history: Queue<T>

    ghost function Model(): Queue<T>
      reads this, semaphore
    {
      history.(elements := queue, size := size, permits := semaphore.count, past := past)
    }

    constructor (size: int)
      ensures Model() == Init(size) && fresh(semaphore)
    {
      this.size, queue, past := size, [], 0;
      semaphore := new OrkSemaphore(1);
      history := Init(size);
      new;
      semaphore.Acquire();
    }

    method Push(element: T) returns (result: bool)
      modifies this, semaphore
      ensures Model() == OnPush(old(Model()), element) && semaphore == old(semaphore)
      ensures result <==> |old(queue)| < Unsigned(size)
      ensures queue == old(queue) + if result then [element] else []
      ensures semaphore.count == old(semaphore.count) + 1
    {
      result := false;
      if |queue| < size % 0x1_0000_0000 {
        queue := queue + [element];
        history := history.(accepted := history.accepted + [element]);
        result := true;
      } else {
        history := history.(rejectedPushes := history.rejectedPushes + 1);
      }
      semaphore.Release();
    }

    /** The semaphore is passed, then the queue looked at; None stands for the default element. */
    method Pop() returns (element: Option<T>)
      requires semaphore.count > 0
      modifies this, semaphore
      ensures Next(old(Model()), Acquire).Some? && semaphore == old(semaphore)
      ensures Model() == OnPop(Next(old(Model()), Acquire).value)
      ensures old(queue) == [] ==> element == None && queue == []
      ensures old(queue) != [] ==> element == Some(old(queue)[0]) && queue == old(queue)[1..]
      ensures semaphore.count == old(semaphore.count) - 1
    {
      semaphore.Acquire();
      element := None;
      if |queue| > 0 {
        element := Some(queue[0]);
        history := history.(popped := history.popped + [queue[0]]);
        queue := queue[1..];
      } else {
        history := history.(emptyPops := history.emptyPops + 1);
      }
    }

    method SetQueueSize(size: int)
      modifies this`size
      ensures Next(old(Model()), SetSize(size)) == Some(Model())
    {
      this.size := size;
    }
  }
}
