/**
 * The snapshot builder of the active-note plugin: what `writePointer` in
 * main.ts reads from the focused markdown view and the record it builds
 * from it, before that record is serialised.
 */
module Snapshots {
  import opened Wrappers

  /**
   * The part of the active markdown view that `writePointer` queries:
   * the view's file path (absent when the view shows no file), the text
   * that `editor.getSelection()` returns (empty when nothing is selected)
   * and the 0-based lines of the `from` and `to` cursors. The host, not
   * the plugin, decides whether `fromLine <= toLine`.
   */
  datatype View = View(file: Option<string>, selectedText: string, fromLine: nat, toLine: nat)

  /** The optional `selection` block as a tagged variant. */
  datatype Selection =
    | NoSelection
    | WithSelection(text: string, startLine: nat, endLine: nat)

  /** The record written to the pointer file. */
  datatype Snapshot = Snapshot(path: string, selection: Selection)

  /**
   * What every record the plugin builds satisfies: a selection block holds
   * non-empty text and 1-based line numbers.
   */
  predicate WellFormed(s: Snapshot) {
    s.selection.WithSelection? ==>
      s.selection.text != [] && s.selection.startLine >= 1 && s.selection.endLine >= 1
  }

  /**
   * The record `writePointer` writes for the active markdown view `active`
   * (None when no markdown view is active), or None when it writes nothing.
   */
  function BuildSnapshot(active: Option<View>): (r: Option<Snapshot>)
    ensures r.None? <==> active.None? || active.value.file.None?
    ensures r.Some? ==> WellFormed(r.value)
    ensures r.Some? ==> r.value.path == active.value.file.value
    ensures r.Some? ==> (r.value.selection.WithSelection? <==> active.value.selectedText != [])
    ensures r.Some? && r.value.selection.WithSelection? ==>
              r.value.selection.text == active.value.selectedText
              && r.value.selection.startLine == active.value.fromLine + 1
              && r.value.selection.endLine == active.value.toLine + 1
  {
    if active.None? || active.value.file.None? then None
    else
      var v := active.value;
      var sel := if v.selectedText == [] then NoSelection
                 else WithSelection(v.selectedText, v.fromLine + 1, v.toLine + 1);
      Some(Snapshot(v.file.value, sel))
  }

  /**
   * The line range of the record is ordered exactly when the host's cursors
   * are: the plugin adds one to each line and does not reorder them.
   */
  lemma LineOrderFollowsHost(v: View)
    requires v.file.Some? && v.selectedText != []
    ensures BuildSnapshot(Some(v)).Some?
    ensures var sel := BuildSnapshot(Some(v)).value.selection;
            sel.WithSelection? && (sel.startLine <= sel.endLine <==> v.fromLine <= v.toLine)
  {
  }
}
