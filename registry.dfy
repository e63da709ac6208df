/**
 * The per-frame action registry: a global and a local action list, the popup
 * visibility flag, the popup's own query input and the filtered list shown in
 * the popup.
 */
module Registry {
  import opened Wrappers
  import opened Shortcuts
  import opened ActionLists

  /** A text input; only the text it currently holds is modelled. */
  class TextInput {
    var text: string

    constructor ()
      ensures text == ""
    {
      text := "";
    }
  }

  /** The events a query input emits. */
  datatype TextEvent = Blur | KeyDown(keystroke: Keystroke) | Back | Input(text: string)

  /** The fuzzy ranker: narrows and orders candidate items for a query text. */
  type Ranker = (string, seq<Item>) -> seq<Item>

  /** The query events that force the popup closed: blur, back, and a press of escape. */
  predicate ClosesPopup(e: TextEvent) {
    e.Blur? || e.Back? || (e.KeyDown? && e.keystroke.key == "escape")
  }

  class Actions {
    var global: seq<Action>
    var local: seq<Action>
    var show: bool
    const query: TextInput
    var items: seq<Item>

    /** An empty registry with the popup closed, its own query input and an empty list. */
    constructor ()
      ensures global == [] && local == [] && !show && items == []
      ensures fresh(query) && query.text == ""
    {
      global, local, show, items := [], [], false, [];
      query := new TextInput();
    }

    /** Builds the combined list step by step: copy, append, rewrite the head, push the toggle. */
    method Combined() returns (c: seq<Action>)
      ensures c == CombinedOf(local, global)
    {
      c := local;
      c := c + global;
      if |c| > 0 {
        c := c[0 := c[0].(shortcut := Some(Simple("enter")))];
        c := c + [ToggleAction()];
      }
    }

    /** External read access to the combined list. */
    method Get() returns (c: seq<Action>)
      ensures c == CombinedOf(local, global)
    {
      c := Combined();
    }

    /** First-match dispatch of a keystroke over the combined list. */
    method Check(k: Keystroke) returns (r: Option<Action>)
      ensures r == FirstMatch(CombinedOf(local, global), k)
    {
      var actions := Get();
      for i := 0 to |actions|
        invariant FirstMatch(actions, k) == FirstMatch(actions[i..], k)
      {
        assert actions[i..][1..] == actions[i + 1..];
        if actions[i].shortcut.Some? {
          if actions[i].shortcut.value.inner == k {
            return Some(actions[i]);
          }
        }
      }
      return None;
    }

    /** Re-filters: the ranker is given the non-hidden combined entries and the popup's query text. */
    method ListActions(rank: Ranker)
      modifies this`items
      ensures items == rank(query.text, Candidates(CombinedOf(local, global)))
    {
      var text := query.text;
      var combined := Combined();
      var candidates := Candidates(combined);
      items := rank(text, candidates);
    }

    /** Replaces the global list wholesale and re-filters. */
    method UpdateGlobal(actions: seq<Action>, rank: Ranker)
      modifies this`global, this`items
      ensures global == actions && local == old(local) && show == old(show)
      ensures items == rank(query.text, Candidates(CombinedOf(local, actions)))
    {
      global := actions;
      ListActions(rank);
    }

    /** Replaces the local list wholesale and re-filters. */
    method UpdateLocal(actions: seq<Action>, rank: Ranker)
      modifies this`local, this`items
      ensures local == actions && global == old(global) && show == old(show)
      ensures items == rank(query.text, Candidates(CombinedOf(actions, global)))
    {
      local := actions;
      ListActions(rank);
    }

    /** The toggle command: flips the popup's visibility. */
    method Toggle()
      modifies this`show
      ensures show == !old(show)
    {
      show := !show;
    }

    /**
     * The handler for events of the popup's query input: blur, back and escape
     * close the popup; typed input re-filters; any other key changes nothing.
     */
    method OnQueryEvent(e: TextEvent, rank: Ranker)
      modifies this`show, this`items
      ensures show == (old(show) && !ClosesPopup(e))
      ensures items == if e.Input? then rank(query.text, Candidates(CombinedOf(local, global))) else old(items)
    {
      match e {
        case Blur =>
          show := false;
        case Back =>
          show := false;
        case KeyDown(ks) =>
          if ks.key == "escape" {
            show := false;
          }
        case Input(_) =>
          ListActions(rank);
      }
    }

    /** Invoking the toggle twice restores the popup's visibility. */
    method ToggleTwice()
      modifies this`show
      ensures show == old(show)
    {
      Toggle();
      Toggle();
    }
  }
}
