/** The editor's play-mode flags and its entity selection. */
module Editing {
  import opened Common

  datatype GizmoMode = Translate | Rotate | Scale
  datatype GizmoSpace = World | Local
  datatype DebugView =
    | NoDebugView | Wireframe | Overdraw | LightingOnly
    | RayTracingDebug | VirtualTextureTiles | StreamingCells

  /** The selection after `add_to_selection(id)`: `id` joins the end unless
      it is already selected. */
  function WithSelected(sel: seq<usize>, id: usize): (r: seq<usize>)
    ensures id in r && forall x :: x in sel ==> x in r
    ensures forall x :: x in r ==> x in sel || x == id
    ensures id in sel ==> r == sel
    ensures id !in sel ==> r == sel + [id]
    ensures NoDuplicates(sel) ==> NoDuplicates(r)
  {
    if id in sel then sel else sel + [id]
  }

  /** Adding the same id twice selects exactly what adding it once does. */
  lemma WithSelectedIdempotent(sel: seq<usize>, id: usize)
    ensures WithSelected(WithSelected(sel, id), id) == WithSelected(sel, id)
  {
  }

  class Editor {
    var gizmoMode: GizmoMode
    var gizmoSpace: GizmoSpace
    var debugView: DebugView
    var selectedEntities: seq<usize>
    var isPlaying: bool
    var isPaused: bool

    /** No entity is selected twice. */
    predicate Valid()
      reads this
    {
      NoDuplicates(selectedEntities)
    }

    /** `Editor::new`: stopped, translate gizmo in world space, no debug
        view, nothing selected. */
    constructor ()
      ensures Valid()
      ensures !isPlaying && !isPaused && selectedEntities == []
      ensures gizmoMode == Translate && gizmoSpace == World && debugView == NoDebugView
    {
      gizmoMode, gizmoSpace, debugView := Translate, World, NoDebugView;
      selectedEntities := [];
      isPlaying, isPaused := false, false;
    }

    /** `play`: playing and not paused. */
    method Play()
      modifies this
      ensures isPlaying && !isPaused && selectedEntities == old(selectedEntities)
      ensures gizmoMode == old(gizmoMode) && gizmoSpace == old(gizmoSpace) && debugView == old(debugView)
    {
      isPlaying, isPaused := true, false;
    }

    /** `pause`: paused, playing as before. */
    method Pause()
      modifies this
      ensures isPaused && isPlaying == old(isPlaying) && selectedEntities == old(selectedEntities)
      ensures gizmoMode == old(gizmoMode) && gizmoSpace == old(gizmoSpace) && debugView == old(debugView)
    {
      isPaused := true;
    }

    /** `stop`: neither playing nor paused. */
    method Stop()
      modifies this
      ensures !isPlaying && !isPaused && selectedEntities == old(selectedEntities)
      ensures gizmoMode == old(gizmoMode) && gizmoSpace == old(gizmoSpace) && debugView == old(debugView)
    {
      isPlaying, isPaused := false, false;
    }

    /** `step`: its paused branch is empty, so nothing changes. */
    method Step()
      ensures unchanged(this)
    {
      if isPaused {
      }
    }

    /** `select`: the selection becomes exactly this entity. */
    method Select(id: usize)
      modifies this
      ensures Valid() && selectedEntities == [id]
      ensures isPlaying == old(isPlaying) && isPaused == old(isPaused)
      ensures gizmoMode == old(gizmoMode) && gizmoSpace == old(gizmoSpace) && debugView == old(debugView)
    {
      selectedEntities := [id];
    }

    /** `add_to_selection`. */
    method AddToSelection(id: usize)
      requires Valid()
      modifies this
      ensures Valid() && selectedEntities == WithSelected(old(selectedEntities), id)
      ensures isPlaying == old(isPlaying) && isPaused == old(isPaused)
      ensures gizmoMode == old(gizmoMode) && gizmoSpace == old(gizmoSpace) && debugView == old(debugView)
    {
      if id !in selectedEntities {
        selectedEntities := selectedEntities + [id];
      }
    }

    /** `clear_selection`. */
    method ClearSelection()
      modifies this
      ensures Valid() && selectedEntities == []
      ensures isPlaying == old(isPlaying) && isPaused == old(isPaused)
      ensures gizmoMode == old(gizmoMode) && gizmoSpace == old(gizmoSpace) && debugView == old(debugView)
    {
      selectedEntities := [];
    }
  }

  /** `test_editor_creation`, `test_play_mode`, `test_selection`. */
  method EditorScenario()
  {
    var editor := new Editor();
    assert !editor.isPlaying && editor.selectedEntities == [];
    editor.Play();
    assert editor.isPlaying && !editor.isPaused;
    editor.Pause();
    assert editor.isPaused && editor.isPlaying;
    editor.Stop();
    assert !editor.isPlaying;
    editor.Select(1);
    editor.AddToSelection(2);
    assert |editor.selectedEntities| == 2;
    editor.AddToSelection(1);
    assert |editor.selectedEntities| == 2;
    editor.ClearSelection();
    assert editor.selectedEntities == [];
  }
}
