/**
 * Actions and the pure list logic of the action registry: the combined list
 * (local ++ global with the primary "enter" rewrite and the appended toggle),
 * first-match dispatch by shortcut, and the hide filter that produces the
 * candidates handed to the fuzzy ranker.
 */
module ActionLists {
  import opened Wrappers
  import opened Shortcuts

  /** Icons an action image may show; only the one the registry itself uses is named. */
  datatype Icon = BookOpen | NamedIcon(name: string)

  /** The image displayed beside an action (opaque apart from the registry's own icon). */
  datatype Img = ListIcon(icon: Icon) | OtherImg(source: string)

  /**
   * The deferred command an action runs. `TogglePopup` is the registry's own
   * toggle (it flips the popup's visibility); every other command is supplied
   * by a view and is identified only by a tag.
   */
  datatype Command = TogglePopup | User(id: nat)

  /** A labelled, optionally shortcut-bound command with a hide flag. */
  datatype Action = Action(title: string, shortcut: Option<Shortcut>, image: Img, command: Command, hidden: bool)

  /** One entry of the filtered list: its fuzzy-search keys and the actions it carries. */
  datatype Item = Item(keys: seq<string>, actions: seq<Action>)

  /** `Action::new`: an action built from its parts. */
  function NewAction(image: Img, title: string, shortcut: Option<Shortcut>, command: Command, hidden: bool): (a: Action)
    ensures a.title == title && a.shortcut == shortcut && a.image == image
    ensures a.command == command && a.hidden == hidden
  {
    Action(title, shortcut, image, command, hidden)
  }

  /** The synthetic "Actions" entry: bound to command+k, hidden from the list. */
  function ToggleAction(): Action {
    NewAction(ListIcon(BookOpen), "Actions", Some(Cmd("k")), TogglePopup, true)
  }

  /** The primary entry: the given action with its shortcut forced to plain "enter". */
  function Primary(a: Action): Action {
    a.(shortcut := Some(Simple("enter")))
  }

  /**
   * The combined list of a registry: local entries then global entries; when
   * that is non-empty, the first entry's shortcut becomes "enter" and the
   * toggle entry is appended.
   */
  function CombinedOf(local: seq<Action>, global: seq<Action>): (c: seq<Action>)
    ensures c == [] <==> local == [] && global == []
    ensures c != [] ==> |c| == |local| + |global| + 1
    ensures c != [] ==> c[0] == (local + global)[0].(shortcut := Some(Simple("enter")))
    ensures c != [] ==> forall i :: 1 <= i < |local| + |global| ==> c[i] == (local + global)[i]
    ensures c != [] ==> c[|c| - 1] == ToggleAction()
  {
    var merged := local + global;
    if merged == [] then [] else [Primary(merged[0])] + merged[1..] + [ToggleAction()]
  }

  /** Whether the action's shortcut (if it has one) is triggered by the keystroke. */
  predicate Binds(a: Action, k: Keystroke) {
    a.shortcut.Some? && Matches(a.shortcut.value, k)
  }

  /**
   * First-match dispatch: the first action, in order, whose shortcut equals the
   * keystroke exactly; hidden actions take part like any other.
   */
  function FirstMatch(actions: seq<Action>, k: Keystroke): (r: Option<Action>)
    ensures r.None? <==> forall i :: 0 <= i < |actions| ==> !Binds(actions[i], k)
    ensures r.Some? ==> exists i :: 0 <= i < |actions| && actions[i] == r.value && Binds(actions[i], k)
                                    && forall j :: 0 <= j < i ==> !Binds(actions[j], k)
  {
    if actions == [] then None
    else if Binds(actions[0], k) then Some(actions[0])
    else
      var r := FirstMatch(actions[1..], k);
      assert forall i :: 1 <= i < |actions| ==> actions[i] == actions[1..][i - 1];
      r
  }

  /** The list entry built for a visible action: its label is its only search key. */
  function ItemOf(a: Action): Item {
    Item([a.title], [a])
  }

  /**
   * The candidates handed to the fuzzy ranker: one item per action whose hide
   * flag is false, in the order of the input.
   */
  function Candidates(actions: seq<Action>): (r: seq<Item>)
    ensures |r| <= |actions|
    ensures forall it :: it in r ==>
              |it.actions| == 1 && !it.actions[0].hidden && it.actions[0] in actions && it == ItemOf(it.actions[0])
    ensures forall i :: 0 <= i < |actions| && !actions[i].hidden ==> ItemOf(actions[i]) in r
  {
    if actions == [] then []
    else
      var rest := Candidates(actions[1..]);
      assert forall i :: 1 <= i < |actions| ==> actions[i] == actions[1..][i - 1];
      (if actions[0].hidden then [] else [ItemOf(actions[0])]) + rest
  }

  /** Filtering distributes over concatenation, so it keeps the input's order. */
  lemma {:induction false} CandidatesAppend(a: seq<Action>, b: seq<Action>)
    ensures Candidates(a + b) == Candidates(a) + Candidates(b)
  {
    if a == [] {
      assert a + b == b;
    } else {
      assert (a + b)[1..] == a[1..] + b;
      CandidatesAppend(a[1..], b);
    }
  }

  /** A single action becomes a candidate exactly when it is not hidden. */
  lemma CandidatesSingle(a: Action)
    ensures Candidates([a]) == if a.hidden then [] else [ItemOf(a)]
  {
    assert [a][1..] == [];
  }

  /** No candidate carries a hidden action. */
  lemma CandidatesAreVisible(actions: seq<Action>)
    ensures forall it :: it in Candidates(actions) ==> |it.actions| == 1 && !it.actions[0].hidden
  {
  }

  /**
   * The candidates of a combined list are those of local ++ global with the
   * head rewritten to its primary form: the toggle entry contributes nothing.
   */
  lemma CandidatesOfCombined(local: seq<Action>, global: seq<Action>)
    ensures var merged := local + global;
            Candidates(CombinedOf(local, global)) ==
              if merged == [] then []
              else Candidates([Primary(merged[0])]) + Candidates(merged[1..])
  {
    var merged := local + global;
    if merged != [] {
      var head := [Primary(merged[0])] + merged[1..];
      assert CombinedOf(local, global) == head + [ToggleAction()];
      CandidatesAppend(head, [ToggleAction()]);
      CandidatesSingle(ToggleAction());
      CandidatesAppend([Primary(merged[0])], merged[1..]);
    }
  }

  /** The toggle entry is never among the candidates of any combined list. */
  lemma ToggleNeverCandidate(local: seq<Action>, global: seq<Action>)
    ensures forall it :: it in Candidates(CombinedOf(local, global)) ==> ToggleAction() !in it.actions
  {
    CandidatesAreVisible(CombinedOf(local, global));
  }

  /** The dispatcher returns only an action bound to exactly the pressed keystroke. */
  lemma FirstMatchBindsExactly(actions: seq<Action>, k: Keystroke)
    ensures FirstMatch(actions, k).Some? ==> FirstMatch(actions, k).value.shortcut == Some(Shortcut(k))
  {
  }

  /** "enter" always dispatches the primary entry of a non-empty combined list. */
  lemma EnterDispatchesPrimary(local: seq<Action>, global: seq<Action>)
    requires local + global != []
    ensures FirstMatch(CombinedOf(local, global), Simple("enter").inner) == Some(Primary((local + global)[0]))
  {
  }

  /**
   * command+k finds something exactly when the combined list is non-empty; it is
   * the toggle entry unless a non-primary user entry is bound to command+k too.
   */
  lemma CmdKDispatch(local: seq<Action>, global: seq<Action>)
    ensures FirstMatch(CombinedOf(local, global), Cmd("k").inner).Some? <==> local + global != []
    ensures (forall i :: 1 <= i < |local + global| ==> !Binds((local + global)[i], Cmd("k").inner))
            ==> FirstMatch(CombinedOf(local, global), Cmd("k").inner) ==
                  if local + global == [] then None else Some(ToggleAction())
  {
  }

  /** The toggle is dispatched only by command+k exactly (command+shift+k never reaches it). */
  lemma ToggleNeedsExactKeystroke(local: seq<Action>, global: seq<Action>, k: Keystroke)
    requires FirstMatch(CombinedOf(local, global), k) == Some(ToggleAction())
    ensures k == Cmd("k").inner
  {
    FirstMatchBindsExactly(CombinedOf(local, global), k);
  }

  /** Action A of the worked example: no shortcut, visible. */
  const ExampleA := NewAction(OtherImg("a"), "A", None, User(1), false)

  /** Action B of the worked example: bound to command+b, visible. */
  const ExampleB := NewAction(OtherImg("b"), "B", Some(Cmd("b")), User(2), false)

  /** The worked example: local = [A] and global = [B] give [A on enter, B, toggle]. */
  lemma WorkedExampleCombined()
    ensures CombinedOf([ExampleA], [ExampleB]) == [Primary(ExampleA), ExampleB, ToggleAction()]
  {
  }

  /**
   * In the worked example enter, command+b and command+k dispatch A, B and the
   * toggle, and escape dispatches nothing.
   */
  lemma WorkedExampleDispatch()
    ensures var c := [Primary(ExampleA), ExampleB, ToggleAction()];
            && FirstMatch(c, Simple("enter").inner) == Some(Primary(ExampleA))
            && FirstMatch(c, Cmd("b").inner) == Some(ExampleB)
            && FirstMatch(c, Cmd("k").inner) == Some(ToggleAction())
            && FirstMatch(c, Simple("escape").inner) == None
  {
    var c := [Primary(ExampleA), ExampleB, ToggleAction()];
    SimpleIsNeverCmd("enter", "b");
    SimpleIsNeverCmd("enter", "k");
    SimpleIsNeverCmd("escape", "b");
    SimpleIsNeverCmd("escape", "k");
    assert "escape" != "enter";
    assert Cmd("b").inner != Cmd("k").inner by { assert Cmd("b").inner.key != Cmd("k").inner.key; }
    assert !Binds(ExampleB, Cmd("k").inner);
    assert c[1..] == [ExampleB, ToggleAction()];
    assert c[1..][1..] == [ToggleAction()];
    assert c[1..][1..][1..] == [];
    assert FirstMatch(c[1..][1..], Cmd("k").inner) == Some(ToggleAction());
    assert FirstMatch(c[1..], Cmd("k").inner) == Some(ToggleAction());
  }

  /** In the worked example the toggle is left out of the candidates. */
  lemma WorkedExampleCandidates()
    ensures Candidates([Primary(ExampleA), ExampleB, ToggleAction()]) == [ItemOf(Primary(ExampleA)), ItemOf(ExampleB)]
  {
    var c := [Primary(ExampleA), ExampleB, ToggleAction()];
    assert c == [Primary(ExampleA)] + [ExampleB] + [ToggleAction()];
    CandidatesAppend([Primary(ExampleA)] + [ExampleB], [ToggleAction()]);
    CandidatesAppend([Primary(ExampleA)], [ExampleB]);
    CandidatesSingle(Primary(ExampleA));
    CandidatesSingle(ExampleB);
    CandidatesSingle(ToggleAction());
  }
}
