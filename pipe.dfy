/** pipe.c: a chain of stages, each with a one-slot buffer. The head
    receives the pipeline's inputs; every stage but the tail has a thread
    that passes its value plus one to the next stage; the caller collects
    results from the tail, and `activity` counts the inputs not yet
    collected. Each region a mutex protects is one method, except that
    `Start` and `Result` each join the `pipe->mutex` region with a stage's
    region into one step; a thread blocked on a condition variable takes
    no step: a step's wait condition is its precondition. */
module Pipe {

  /** A stage's buffer seen from outside: empty, or holding the value
      derived from the pipeline input `input`. */
  datatype Slot = Empty | Full(input: int)

  /** The inputs still inside a pipeline whose buffers, head first, are
      `slots`, in the order they will reach the caller: the one nearest
      the tail first. */
  function Pending(slots: seq<Slot>): seq<int> {
    if slots == [] then []
    else Pending(slots[1..]) + (if slots[0].Full? then [slots[0].input] else [])
  }

  /** Sending into the empty head buffer queues the input behind all the
      inputs already in the pipeline. */
  lemma PendingPush(slots: seq<Slot>, x: int)
    requires slots != [] && slots[0] == Empty
    ensures Pending(slots[0 := Full(x)]) == Pending(slots) + [x]
  {
    assert slots[0 := Full(x)][1..] == slots[1..];
  }

  /** A value moving from a stage into the empty buffer of the next stage
      does not overtake or fall behind any other input. */
  lemma {:induction false} PendingShift(slots: seq<Slot>, i: nat, x: int)
    requires i + 1 < |slots| && slots[i] == Full(x) && slots[i + 1] == Empty
    ensures Pending(slots[i := Empty][i + 1 := Full(x)]) == Pending(slots)
  {
    var moved := slots[i := Empty][i + 1 := Full(x)];
    if i == 0 {
      assert moved[1..][1..] == slots[1..][1..];
      assert moved[1..][0] == Full(x);
    } else {
      assert moved[1..] == slots[1..][i - 1 := Empty][i := Full(x)];
      PendingShift(slots[1..], i - 1, x);
    }
  }

  /** The input in the tail buffer is the first one out: collecting it
      leaves the others in order. */
  lemma {:induction false} PendingPop(slots: seq<Slot>, x: int)
    requires slots != [] && slots[|slots| - 1] == Full(x)
    ensures Pending(slots) == [x] + Pending(slots[|slots| - 1 := Empty])
  {
    var n := |slots|;
    if n > 1 {
      assert slots[n - 1 := Empty][1..] == slots[1..][n - 2 := Empty];
      PendingPop(slots[1..], x);
    }
  }

  /** One stage of the pipeline. */
  class Stage {
    /** The next stage, null at the tail. */
    var link: Stage?
    /** Whether the one-slot buffer is full. */
    var hasData: bool
    /** The buffered value. */
    var data: int
    /** Whether a stage thread serves this stage. */
    var threaded: bool
    /** The stage's position in its pipeline, the head being 0. */
    ghost var position: nat

    /** A freshly allocated stage with an empty buffer, to be placed at
        `position`. */
    constructor (ghost position: nat)
      ensures link == null && !hasData && data == 0 && !threaded
      ensures this.position == position
    {
      link := null;
      hasData := false;
      data := 0;
      threaded := false;
      this.position := position;
    }

    /** The buffer is full exactly when `slot` is, and then holds the
        slot's input plus `i`. */
    ghost predicate Holds(slot: Slot, i: int)
      reads this
    {
      hasData == slot.Full? && (slot.Full? ==> data == slot.input + i)
    }

    /** pipe_send, once the buffer is empty: stores the value and marks
        the buffer full. */
    method Send(value: int)
      requires !hasData
      modifies this`data, this`hasData
      ensures hasData && data == value
    {
      data := value;
      hasData := true;
    }
  }

  class Pipeline {
    /** The first stage, which receives the inputs. */
    var head: Stage?
    /** The last stage, which holds the results and has no thread. */
    var tail: Stage?
    /** The number of stages. */
    var stages: int
    /** The number of inputs started and not yet collected. */
    var activity: int
    /** The stages, head first, as the links connect them. */
    ghost var chain: seq<Stage>
    /** What each stage's buffer holds, head first. */
    ghost var slots: seq<Slot>

    /** The inputs inside the pipeline, in the order they come out. */
    ghost function Inputs(): seq<int>
      reads this
    {
      Pending(slots)
    }

    /** The stages are linked in order from head to tail, each knows its
        position (so they are distinct), and exactly the non-tail stages
        have a thread. */
    ghost predicate Linked()
      reads this`stages, this`head, this`tail, this`chain, chain`link, chain`position, chain`threaded
    {
      && stages == |chain| >= 1
      && head == chain[0] && tail == chain[stages - 1]
      && chain[stages - 1].link == null
      && forall i :: 0 <= i < stages ==>
           && chain[i].position == i
           && chain[i].threaded == (i < stages - 1)
           && (i < stages - 1 ==> chain[i].link == chain[i + 1])
    }

    /** The pipeline is linked; each stage's buffer matches its slot, a
        full buffer at position i holding its input plus i; and
        `activity` counts the inputs inside the pipeline. */
    ghost predicate Valid()
      reads this, chain
    {
      && Linked()
      && |slots| == stages
      && (forall i :: 0 <= i < stages ==> chain[i].Holds(slots[i], i))
      && activity == |Inputs()|
    }

    /** create_pipe: allocates `stages` stages with empty buffers, links
        them in order, ends the chain at the tail, and starts a thread for
        every stage but the tail; no input is outstanding. A pipeline needs at least one stage: with
        none, the tail would be an uninitialised pointer. */
    method Create(stages: int)
      requires stages >= 1
      modifies this
      ensures Valid() && fresh(chain)
      ensures this.stages == stages && activity == 0
      ensures forall i :: 0 <= i < stages ==> !chain[i].hasData && chain[i].data == 0
      ensures Inputs() == []
    {
      this.stages := stages;
      activity := 0;
      LinkStages();
      StartThreads();
      slots := seq(stages, _ => Empty);
      EmptyIsValid();
    }

    /** A linked pipeline whose buffers are all empty and which counts no
        input is valid and holds no input. */
    lemma EmptyIsValid()
      requires Linked() && |slots| == stages && activity == 0
      requires forall i :: 0 <= i < stages ==> slots[i] == Empty && !chain[i].hasData
      ensures Valid() && Inputs() == []
    {
      AllEmpty(slots);
    }

    /** The first loop of create_pipe: allocates `stages` stages with
        empty buffers, linking each new stage to the previous one (the
        first becomes the head); the last one ends the chain and becomes
        the tail. */
    method LinkStages()
      requires stages >= 1
      modifies this`head, this`tail, this`chain
      ensures fresh(chain) && |chain| == stages
      ensures head == chain[0] && tail == chain[stages - 1] && tail.link == null
      ensures forall j :: 0 <= j < stages ==> chain[j].position == j
      ensures forall j :: 0 <= j < stages - 1 ==> chain[j].link == chain[j + 1]
      ensures forall j :: 0 <= j < stages ==> !chain[j].hasData && chain[j].data == 0 && !chain[j].threaded
    {
      chain := [];
      var prev: Stage? := null;
      var i := 0;
      while i < stages
        invariant 0 <= i <= stages && |chain| == i
        invariant prev == if i == 0 then null else chain[i - 1]
        invariant fresh(chain)
        invariant forall j :: 0 <= j < i ==> chain[j].position == j
        invariant forall j :: 0 <= j < i - 1 ==> chain[j].link == chain[j + 1]
        invariant i > 0 ==> head == chain[0]
        invariant forall j :: 0 <= j < i ==> !chain[j].hasData && chain[j].data == 0 && !chain[j].threaded
      {
        var next := new Stage(i);
        if prev == null {
          head := next;
        } else {
          prev.link := next;
        }
        chain := chain + [next];
        prev := next;
        i := i + 1;
      }
      prev.link := null;
      tail := prev;
    }

    /** The second loop of create_pipe: walking the links from the head,
        starts a thread for every stage that has a successor, so every
        stage but the tail gets one. */
    method StartThreads()
      requires stages == |chain| >= 1 && head == chain[0] && tail == chain[stages - 1]
      requires forall i :: 0 <= i < stages ==> chain[i].position == i
      requires forall i :: 0 <= i < stages - 1 ==> chain[i].link == chain[i + 1]
      requires chain[stages - 1].link == null
      requires forall i :: 0 <= i < stages ==> !chain[i].threaded
      modifies chain`threaded
      ensures forall i :: 0 <= i < stages ==> chain[i].threaded == (i < stages - 1)
      ensures forall i :: 0 <= i < stages ==> chain[i].hasData == old(chain[i].hasData) && chain[i].data == old(chain[i].data)
      ensures Linked()
    {
      var stage := head;
      ghost var k := 0;
      while stage.link != null
        invariant 0 <= k < stages && stage == chain[k]
        invariant k < stages - 1 ==> stage.link == chain[k + 1]
        invariant forall j :: 0 <= j < k ==> chain[j].threaded
        invariant forall j :: k <= j < stages ==> !chain[j].threaded
        decreases stages - k
      {
        stage.threaded := true;
        stage := stage.link;
        k := k + 1;
      }
    }

    /** pipe_start, once the head buffer is empty: counts one more input
        and sends it to the head. */
    method Start(value: int)
      requires Valid() && !head.hasData
      modifies this`activity, this`slots, head`data, head`hasData
      ensures Valid() && chain == old(chain)
      ensures activity == old(activity) + 1
      ensures Inputs() == old(Inputs()) + [value]
      ensures slots == old(slots)[0 := Full(value)]
    {
      activity := activity + 1;
      head.Send(value);
      PendingPush(slots, value);
      slots := slots[0 := Full(value)];
    }

    /** One round of the thread of `stage`, the stage at position `i`, once
        its buffer is full and the next stage's is empty: passes its value
        plus one to the next stage, then empties its own buffer. */
    method Forward(stage: Stage, ghost i: nat)
      requires Valid() && i < stages && stage == chain[i] && stage.threaded
      requires stage.hasData && stage.link != null && !stage.link.hasData
      modifies this`slots, stage`hasData, stage.link`data, stage.link`hasData
      ensures Valid() && chain == old(chain)
      ensures !stage.hasData && chain[i + 1].hasData
      ensures chain[i + 1].data == old(stage.data) + 1
      ensures activity == old(activity) && Inputs() == old(Inputs())
      ensures slots == old(slots)[i := Empty][i + 1 := Full(old(slots[i]).input)]
    {
      var next := stage.link;
      assert next == chain[i + 1];
      next.Send(stage.data + 1);
      stage.hasData := false;
      ghost var x := slots[i].input;
      PendingShift(slots, i, x);
      slots := slots[i := Empty][i + 1 := Full(x)];
    }

    /** pipe_result. With no input outstanding it reports an empty pipe
        and changes nothing. Otherwise, once the tail buffer is full, it
        counts one input less, takes the tail's value, which is the oldest
        input plus one for every stage after the head, and empties the
        tail buffer. */
    method Result() returns (got: bool, result: int)
      requires Valid()
      requires activity > 0 ==> tail.hasData
      modifies this`activity, this`slots, tail`hasData
      ensures Valid() && chain == old(chain)
      ensures got <==> old(activity) > 0
      ensures !got ==> activity == old(activity) && Inputs() == old(Inputs()) && slots == old(slots)
      ensures got ==> && activity == old(activity) - 1
                      && result == old(tail.data) == old(Inputs())[0] + stages - 1
                      && Inputs() == old(Inputs())[1..]
                      && !tail.hasData && slots == old(slots)[stages - 1 := Empty]
    {
      if activity <= 0 {
        return false, 0;
      }
      activity := activity - 1;
      result := tail.data;
      tail.hasData := false;
      PendingPop(slots, slots[stages - 1].input);
      slots := slots[stages - 1 := Empty];
      forall i | 0 <= i < stages
        ensures chain[i].Holds(slots[i], i)
      {
        // only the tail's buffer changed, and stages differ by position
        assert i < stages - 1 ==> chain[i].position != tail.position;
      }
      got := true;
    }
  }

  /** A pipeline whose buffers are all empty holds no input. */
  lemma {:induction false} AllEmpty(slots: seq<Slot>)
    requires forall i :: 0 <= i < |slots| ==> slots[i] == Empty
    ensures Pending(slots) == []
  {
    if slots != [] {
      AllEmpty(slots[1..]);
    }
  }

  // ---------------------------------------------------------------------
  // The width of the value a stage passes on

  /** pipe_send's `int` parameter receiving a `long` on a two's-complement
      target with a 32-bit `int`: the value modulo 2^32, read as signed. */
  function ToInt32(x: int): (r: int)
    ensures -0x8000_0000 <= r < 0x8000_0000
    ensures (x - r) % 0x1_0000_0000 == 0
    ensures -0x8000_0000 <= x < 0x8000_0000 ==> r == x
  {
    (x + 0x8000_0000) % 0x1_0000_0000 - 0x8000_0000
  }

  /** The value the tail of an `n`-stage pipeline holds for input `x`
      with pipe_send taking an `int`: the head's send and every stage's
      send narrow the value. */
  function TailValueAsWritten(x: int, n: nat): (r: int)
    requires n >= 1
    ensures -0x8000_0000 <= r < 0x8000_0000
    ensures (x + n - 1 - r) % 0x1_0000_0000 == 0
  {
    if n == 1 then ToInt32(x) else ToInt32(TailValueAsWritten(x, n - 1) + 1)
  }

  /** While every value fits in an `int`, the narrowing is invisible:
      the tail holds the input plus one per stage after the head. */
  lemma {:induction false} NarrowingHarmlessInRange(x: int, n: nat)
    requires n >= 1 && -0x8000_0000 <= x && x + n - 1 < 0x8000_0000
    ensures TailValueAsWritten(x, n) == x + n - 1
  {
    if n > 1 {
      NarrowingHarmlessInRange(x, n - 1);
    }
  }

  /** An input that a `long` holds but an `int` does not comes out of the
      five-stage pipeline of main wrapped around: 3000000000 gives
      -1294967292 instead of 3000000004. */
  lemma NarrowingWrapsLargeInputs()
    ensures TailValueAsWritten(3000000000, 5) == -1294967292
    ensures TailValueAsWritten(3000000000, 5) != 3000000000 + 5 - 1
  {
  }

  /** main's pipeline of five stages, given one input and asked for one
      result once every stage thread has passed it on, returns the input
      plus four. */
  method FiveStageRun(x: int) returns (got: bool, result: int)
    ensures got && result == x + 4
  {
    var p := new Pipeline;
    p.Create(5);
    assert p.slots == seq(5, _ => Empty);
    p.Start(x);
    var stage := p.head;
    var i := 0;
    while i < 4
      invariant 0 <= i <= 4 && p.Valid() && p.stages == 5 && fresh(p.chain)
      invariant stage == p.chain[i] && p.activity == 1 && p.Inputs() == [x]
      invariant p.slots == seq(5, j => if j == i then Full(x) else Empty)
    {
      assert stage.link == p.chain[i + 1] && fresh(stage) && fresh(stage.link);
      p.Forward(stage, i);
      stage := stage.link;
      i := i + 1;
    }
    got, result := p.Result();
  }
}
