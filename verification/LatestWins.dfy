/** Replies that may overtake each other: the directory's refetch and the tab panel's select. */
module LatestWins {
  import opened Wrappers

  datatype Event<Query> = Issue(query: Query) | Answer(request: nat)

  /** The directory keeps what it shows until the newest request is answered. */
  class Directory<Query(==)> {
    var issued: seq<Query>
    var open: set<nat>
    /** The number of the request whose result is shown. */
    var shown: Option<nat>

    ghost predicate Valid()
      reads this
    {
      && (forall k :: k in open ==> k < |issued|)
      && (shown.Some? ==> shown.value < |issued| && shown.value !in open)
      && (issued != [] && |issued| - 1 !in open ==> shown == Some(|issued| - 1))
    }

    constructor ()
      ensures Valid() && issued == [] && shown.None?
    {
      issued, open, shown := [], {}, None;
    }

    method Refetch(query: Query)
      requires Valid()
      modifies `issued, `open
      ensures Valid() && issued == old(issued) + [query] && open == old(open) + {|old(issued)|}
    {
      open := open + {|issued|};
      issued := issued + [query];
    }

    /** An answer, in any order: shown only if no newer request was issued, so what is shown never
        goes back to an older request. */
    method Answer(request: nat)
      requires Valid()
      modifies `open, `shown
      ensures Valid() && open == old(open) - {request}
      ensures shown == if request in old(open) && request == |issued| - 1 then Some(request) else old(shown)
      ensures old(shown).Some? ==> shown.Some? && old(shown).value <= shown.value
    {
      if request !in open { return; }
      open := open - {request};
      if request == |issued| - 1 { shown := Some(request); }
    }

    /** However the answers are ordered, once the newest request is answered its result is shown. */
    method Run(events: seq<Event<Query>>)
      requires Valid()
      modifies this
      ensures Valid() && old(issued) <= issued
      ensures issued != [] && |issued| - 1 !in open ==> shown == Some(|issued| - 1)
      ensures old(shown).Some? ==> shown.Some? && old(shown).value <= shown.value
    {
      for i := 0 to |events|
        invariant Valid() && old(issued) <= issued
        invariant old(shown).Some? ==> shown.Some? && old(shown).value <= shown.value
      {
        match events[i]
        case Issue(query) => Refetch(query);
        case Answer(request) => Answer(request);
      }
    }
  }

  datatype Content = Loading(tab: string) | Body(tab: string)

  /** An editor open in the panel: with unsaved changes, with a request running, and with the tab
      it has been asked to give way to. */
  datatype Editor = Editor(dirty: bool, busy: bool, asked: Option<string>)

  datatype PanelEvent =
    | Select(tab: string) | Rendered(run: nat)
    | OpenEditor | Edit(hides: bool) | Work(running: bool, hides: bool) | Saved
    | KeepEditing | Discard

  /** The tab panel says which tab is loading until that tab is rendered. */
  class Panel {
    var active: string
    var selected: seq<string>
    var open: set<nat>
    var content: Option<Content>
    var editor: Option<Editor>

    ghost predicate Valid()
      reads this
    {
      && (forall k :: k in open ==> k < |selected|)
      && (selected == [] ==> content.None?)
      && (selected != [] ==> active == selected[|selected| - 1] && content.Some?)
      && (selected != [] ==> content.value == if |selected| - 1 in open then Loading(active) else Body(active))
      && (editor.Some? ==> content == Some(Body(active)))
    }

    /** Something would be lost with the editor. */
    predicate Held()
      reads this
    {
      editor.Some? && (editor.value.dirty || editor.value.busy)
    }

    constructor (first: string)
      ensures Valid() && selected == [] && editor.None?
    {
      active, selected, open, content, editor := first, [], {}, None, None;
    }

    method Show(tab: string)
      requires Valid()
      modifies this
      ensures Valid() && selected == old(selected) + [tab] && open == old(open) + {|old(selected)|}
      ensures active == tab && content == Some(Loading(tab)) && editor.None?
    {
      active, editor := tab, None;
      open, selected := open + {|selected|}, selected + [tab];
      content := Some(Loading(tab));
    }

    /** A selection waits for an editor with unsaved changes, and is dropped by one at work. */
    method Select(tab: string)
      requires Valid()
      modifies this
      ensures Valid()
      ensures old(Held()) ==>
                && (active, selected, open, content) == old((active, selected, open, content))
                && editor == if old(editor.value.busy) then old(editor)
                    else Some(old(editor).value.(asked := Some(tab)))
      ensures !old(Held()) ==> selected == old(selected) + [tab] && content == Some(Loading(tab)) && editor.None?
    {
      if Held() {
        if !editor.value.busy { editor := Some(editor.value.(asked := Some(tab))); }
        return;
      }
      Show(tab);
    }

    /** Giving up the changes carries out the selection that was asked for. */
    method Discard()
      requires Valid()
      modifies this
      ensures Valid()
      ensures old(editor.Some? && editor.value.asked.Some?) ==> active == old(editor).value.asked.value && editor.None?
      ensures !old(editor.Some? && editor.value.asked.Some?) ==> unchanged(this)
    {
      if editor.Some? && editor.value.asked.Some? { Show(editor.value.asked.value); }
    }

    /** A tab is rendered; a newer selection drops what an older one rendered. */
    method Rendered(run: nat)
      requires Valid()
      modifies `open, `content
      ensures Valid() && open == old(open) - {run}
      ensures content == if run in old(open) && run == |selected| - 1 then Some(Body(active)) else old(content)
    {
      if run !in open { return; }
      open := open - {run};
      if run == |selected| - 1 { content := Some(Body(selected[run])); }
    }

    /** An editor opens in a tab that is rendered. */
    method OpenEditor()
      requires Valid()
      modifies `editor
      ensures Valid() && (old(editor).Some? ==> editor == old(editor))
    {
      if editor.None? && content == Some(Body(active)) { editor := Some(Editor(false, false, None)); }
    }

    method Take(event: PanelEvent)
      requires Valid()
      modifies this
      ensures Valid()
      ensures old(Held()) && !event.Discard? ==>
                editor.Some? && (active, selected, content) == old((active, selected, content))
      ensures old(Held()) && !event.Discard? && !event.Saved? ==> old(editor.value.dirty) ==> editor.value.dirty
    {
      match event
      case Select(tab) => Select(tab);
      case Rendered(run) => Rendered(run);
      case OpenEditor => OpenEditor();
      case Edit(hides) =>
        if editor.Some? {
          editor := Some(editor.value.(dirty := true, asked := if hides then None else editor.value.asked));
        }
      case Work(running, hides) =>
        if editor.Some? {
          editor := Some(editor.value.(busy := running, asked := if hides then None else editor.value.asked));
        }
      case Saved => if editor.Some? { editor := Some(editor.value.(dirty := false, asked := None)); }
      case KeepEditing => if editor.Some? { editor := Some(editor.value.(asked := None)); }
      case Discard => Discard();
    }

    /** The panel never shows another tab than the active one; and whatever is selected or rendered,
        unsaved changes stay on the screen until they are saved or given up. */
    method Run(events: seq<PanelEvent>)
      requires Valid()
      modifies this
      ensures Valid() && (content.Some? ==> content.value.tab == active)
      ensures selected != [] && open == {} ==> content == Some(Body(active))
      ensures old(editor.Some? && editor.value.dirty) && (forall e :: e in events ==> !e.Saved? && !e.Discard?) ==>
                editor.Some? && editor.value.dirty && (active, selected, content) == old((active, selected, content))
    {
      for i := 0 to |events|
        invariant Valid()
        invariant old(editor.Some? && editor.value.dirty) && (forall e :: e in events ==> !e.Saved? && !e.Discard?) ==>
                    editor.Some? && editor.value.dirty
                        && (active, selected, content) == old((active, selected, content))
      {
        Take(events[i]);
      }
    }
  }
}
