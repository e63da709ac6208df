/**
 * The navigation stack: an ordered sequence of frames, each with its own
 * query input, view and action registry. The root frame is never removed.
 */
module Navigation {
  import opened Shortcuts
  import opened Registry

  /** A built view; opaque apart from its identity. */
  datatype View = View(id: nat)

  /** One entry of the stack: its own query input, its view and its registry. */
  datatype Frame = Frame(query: TextInput, view: View, actions: Actions)

  /** A navigation step, for reasoning about arbitrary sequences of them. */
  datatype NavOp<F> = PushOp(frame: F) | PopOp

  /** Pushing puts the frame on top. */
  function PushSpec<F>(s: seq<F>, f: F): seq<F> {
    s + [f]
  }

  /** Popping removes the top frame, but only when more than one frame is left. */
  function PopSpec<F>(s: seq<F>): seq<F> {
    if |s| > 1 then s[..|s| - 1] else s
  }

  function Step<F>(s: seq<F>, op: NavOp<F>): seq<F> {
    match op
    case PushOp(f) => PushSpec(s, f)
    case PopOp => PopSpec(s)
  }

  /** The stack after applying the steps in order. */
  function Run<F>(s: seq<F>, ops: seq<NavOp<F>>): seq<F>
    decreases |ops|
  {
    if ops == [] then s else Run(Step(s, ops[0]), ops[1..])
  }

  /** Popping a single-frame stack changes nothing. */
  lemma PopRootIsNoOp<F>(s: seq<F>)
    requires |s| == 1
    ensures PopSpec(s) == s
  {
  }

  /** Popping a deeper stack removes exactly the top frame and keeps all others. */
  lemma PopRemovesTop<F>(s: seq<F>)
    requires |s| > 1
    ensures |PopSpec(s)| == |s| - 1
    ensures forall i :: 0 <= i < |s| - 1 ==> PopSpec(s)[i] == s[i]
  {
  }

  /** Pushing grows the stack by one, puts the frame last and keeps all others. */
  lemma PushAddsTop<F>(s: seq<F>, f: F)
    ensures |PushSpec(s, f)| == |s| + 1 && PushSpec(s, f)[|s|] == f
    ensures forall i :: 0 <= i < |s| ==> PushSpec(s, f)[i] == s[i]
  {
  }

  /** On a non-empty stack, push then pop restores the stack. */
  lemma PushThenPopRestores<F>(s: seq<F>, f: F)
    requires |s| >= 1
    ensures PopSpec(PushSpec(s, f)) == s
  {
    assert PushSpec(s, f)[..|s|] == s;
  }

  /** Any sequence of pushes and pops keeps the stack non-empty and the root in place. */
  lemma {:induction false} RunKeepsRoot<F>(s: seq<F>, ops: seq<NavOp<F>>)
    requires |s| >= 1
    ensures |Run(s, ops)| >= 1 && Run(s, ops)[0] == s[0]
    decreases |ops|
  {
    if ops != [] {
      var t := Step(s, ops[0]);
      assert |t| >= 1 && t[0] == s[0];
      RunKeepsRoot(t, ops[1..]);
    }
  }

  /** The navigation state: the frame stack and whether the window was asked to hide. */
  class State {
    var stack: seq<Frame>
    var hideRequested: bool

    /** Never empty, and no two frames share a query input or a registry. */
    ghost predicate Valid()
      reads this
    {
      && |stack| >= 1
      && forall i, j :: 0 <= i < j < |stack| ==>
           stack[i].actions != stack[j].actions && stack[i].query != stack[j].query
    }

    /** A frame for the view: a fresh registry and a fresh query input, both empty. */
    static method NewFrame(view: View) returns (f: Frame)
      ensures f.view == view && fresh(f.query) && fresh(f.actions)
      ensures f.query.text == ""
      ensures f.actions.global == [] && f.actions.local == [] && !f.actions.show && f.actions.items == []
    {
      var actions := new Actions();
      var query := new TextInput();
      f := Frame(query, view, actions);
    }

    /** The stack holds exactly the root frame. */
    constructor Init(root: View)
      ensures Valid() && |stack| == 1 && stack[0].view == root
      ensures fresh(stack[0].query) && fresh(stack[0].actions)
      ensures stack[0].query.text == ""
      ensures stack[0].actions.global == [] && stack[0].actions.local == [] && !stack[0].actions.show
      ensures !hideRequested
    {
      var item := NewFrame(root);
      stack := [item];
      hideRequested := false;
    }

    /** Removes the top frame, unless it is the root. */
    method Pop()
      requires Valid()
      modifies this`stack
      ensures Valid()
      ensures stack == PopSpec(old(stack))
    {
      if |stack| > 1 {
        stack := stack[..|stack| - 1];
      }
    }

    /** Appends a new frame for the view; it becomes the active one. */
    method Push(view: View)
      requires Valid()
      modifies this`stack
      ensures Valid()
      ensures |stack| == |old(stack)| + 1 && stack[..|old(stack)|] == old(stack)
      ensures stack[|stack| - 1].view == view
      ensures fresh(stack[|stack| - 1].query) && fresh(stack[|stack| - 1].actions)
      ensures stack[|stack| - 1].query.text == ""
      ensures var a := stack[|stack| - 1].actions; a.global == [] && a.local == [] && !a.show && a.items == []
    {
      var item := NewFrame(view);
      stack := stack + [item];
    }

    /**
     * The handler for events of a frame's own query input: back pops the
     * stack, escape asks the window to hide, anything else changes nothing.
     */
    method OnFrameQueryEvent(e: TextEvent)
      requires Valid()
      modifies this
      ensures Valid()
      ensures stack == if e.Back? then PopSpec(old(stack)) else old(stack)
      ensures hideRequested == (old(hideRequested) || (e.KeyDown? && e.keystroke.key == "escape"))
    {
      match e {
        case Back =>
          Pop();
        case KeyDown(ks) =>
          if ks.key == "escape" {
            hideRequested := true;
          }
        case _ =>
      }
    }

    /**
     * Pushing a view and popping it again leaves the stack as it was, and
     * every frame's query text and registry state as they were.
     */
    method PushThenPop(view: View)
      requires Valid()
      modifies this`stack
      ensures Valid() && stack == old(stack)
      ensures forall i :: 0 <= i < |stack| ==> unchanged(stack[i].query, stack[i].actions)
    {
      Push(view);
      Pop();
    }
  }
}
