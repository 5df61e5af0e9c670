/**
 * The column manager dialog: a working copy of the board's columns that the
 * user reorders, renames, deletes and extends before saving it as a whole,
 * and the inline editor of one column's name.
 */
module ColumnManager {
  import opened Wrappers
  import opened Text
  import opened KanbanTypes
  import opened Tickets
  import opened KanbanBoard
  import opened Seqs

  /** The list after `handleAddColumn`: a blank name adds nothing, any other one column with the trimmed name at the end. */
  function AddColumn(columns: seq<Column>, name: string, id: string): (r: seq<Column>)
    ensures Trim(name) == "" ==> r == columns
    ensures Trim(name) != "" ==> r == columns + [Column(id, Trim(name))]
  {
    if Trim(name) == "" then columns else columns + [Column(id, Trim(name))]
  }

  /** An added column has a non-blank, already trimmed name. */
  lemma AddedNameTrimmed(columns: seq<Column>, name: string, id: string)
    requires Trim(name) != ""
    ensures var c := AddColumn(columns, name, id)[|columns|]; c.name != "" && Trim(c.name) == c.name
  {
    TrimIdempotent(name);
  }

  lemma {:induction false} WithoutAbsentColumn(columns: seq<Column>, id: string)
    requires !HasColumn(columns, id)
    ensures WithoutColumn(columns, id) == columns
    decreases |columns|
  {
    if columns != [] {
      assert columns[0] in columns;
      forall i | 0 <= i < |columns| - 1 ensures columns[1..][i].id != id {
        assert columns[1..][i] == columns[i + 1];
      }
      WithoutAbsentColumn(columns[1..], id);
      assert columns == [columns[0]] + columns[1..];
    }
  }

  /** One step of the filter: the head is kept or dropped, then the rest is filtered. */
  lemma WithoutColumnCons(x: Column, xs: seq<Column>, id: string)
    ensures WithoutColumn([x] + xs, id) == (if x.id == id then [] else [x]) + WithoutColumn(xs, id)
  {
    assert ([x] + xs)[0] == x && ([x] + xs)[1..] == xs;
  }

  lemma {:induction false} WithoutColumnAppend(columns: seq<Column>, c: Column, id: string)
    ensures WithoutColumn(columns + [c], id) == WithoutColumn(columns, id) + (if c.id == id then [] else [c])
    decreases |columns|
  {
    if columns == [] {
      WithoutColumnCons(c, [], id);
      assert columns + [c] == [c] + [];
    } else {
      var x, xs := columns[0], columns[1..];
      ConsAppend(columns, c);
      WithoutColumnCons(x, xs + [c], id);
      WithoutColumnCons(x, xs, id);
      WithoutColumnAppend(xs, c, id);
      AppendAssoc(if x.id == id then [] else [x], WithoutColumn(xs, id), if c.id == id then [] else [c]);
    }
  }

  /** The filter distributes over concatenation, so what it keeps stays in the original order. */
  lemma {:induction false} WithoutColumnDistributes(a: seq<Column>, b: seq<Column>, id: string)
    ensures WithoutColumn(a + b, id) == WithoutColumn(a, id) + WithoutColumn(b, id)
    decreases |a|
  {
    if a == [] {
      assert a + b == b;
    } else {
      var x, xs := a[0], a[1..];
      assert a == [x] + xs;
      assert a + b == [x] + (xs + b);
      WithoutColumnCons(x, xs + b, id);
      WithoutColumnCons(x, xs, id);
      WithoutColumnDistributes(xs, b, id);
      AppendAssoc(if x.id == id then [] else [x], WithoutColumn(xs, id), WithoutColumn(b, id));
    }
  }

  /** Deleting a column just added under a fresh id gives back the list from before. */
  lemma DeleteUndoesAdd(columns: seq<Column>, name: string, id: string)
    requires !HasColumn(columns, id)
    ensures WithoutColumn(AddColumn(columns, name, id), id) == columns
  {
    WithoutAbsentColumn(columns, id);
    if Trim(name) != "" {
      WithoutColumnAppend(columns, Column(id, Trim(name)), id);
    }
  }

  /** Column ids that are pairwise distinct. */
  predicate DistinctIds(columns: seq<Column>) {
    forall i, j :: 0 <= i < j < |columns| ==> columns[i].id != columns[j].id
  }

  /** With distinct ids a delete removes at most one column, so a list of two or more never becomes empty. */
  lemma {:induction false} DeleteRemovesAtMostOne(columns: seq<Column>, id: string)
    requires DistinctIds(columns)
    ensures |WithoutColumn(columns, id)| >= |columns| - 1
    decreases |columns|
  {
    if columns != [] {
      var rest := columns[1..];
      assert DistinctIds(rest) by {
        forall i, j | 0 <= i < j < |rest| ensures rest[i].id != rest[j].id {
          assert rest[i] == columns[i + 1] && rest[j] == columns[j + 1];
        }
      }
      if columns[0].id == id {
        forall i | 0 <= i < |rest| ensures rest[i].id != id {
          assert rest[i] == columns[i + 1];
        }
        WithoutAbsentColumn(rest, id);
      } else {
        DeleteRemovesAtMostOne(rest, id);
      }
    }
  }

  /** The dialog's working copy of the columns. */
  class Manager {
    var columns: seq<Column>
    var newColumnName: string
    var saving: bool

    constructor (initialColumns: seq<Column>)
      ensures columns == initialColumns && newColumnName == "" && !saving
    {
      columns := initialColumns;
      newColumnName := "";
      saving := false;
    }

    /**
     * `handleDragEnd`: a drop on another item moves the dragged column to
     * that item's place; a drop on itself or outside the list does nothing.
     */
    method HandleDragEnd(activeId: string, overId: Option<string>)
      modifies this
      ensures overId.None? || overId == Some(activeId) ==> columns == old(columns)
      ensures overId.Some? && overId.value != activeId && HasColumn(old(columns), activeId) && HasColumn(old(columns), overId.value) ==>
        columns == ArrayMove(old(columns), ColumnIndex(old(columns), activeId), ColumnIndex(old(columns), overId.value))
      ensures multiset(columns) == multiset(old(columns))
      ensures newColumnName == old(newColumnName) && saving == old(saving)
    {
      if overId.Some? && activeId != overId.value {
        var oldIndex := ColumnIndex(columns, activeId);
        var newIndex := ColumnIndex(columns, overId.value);
        if oldIndex != -1 && newIndex != -1 {
          columns := ArrayMove(columns, oldIndex, newIndex);
        }
      }
    }

    /** `handleRename`: only the columns with that id get the new name. */
    method HandleRename(id: string, name: string)
      modifies this
      ensures columns == RenameColumn(old(columns), id, name)
      ensures newColumnName == old(newColumnName) && saving == old(saving)
    {
      columns := RenameColumn(columns, id, name);
    }

    /**
     * `handleDelete`: refused with an alert while there is at most one column;
     * otherwise `confirmed`, the user's answer, decides.
     */
    method HandleDelete(id: string, confirmed: bool)
      modifies this
      ensures |old(columns)| <= 1 || !confirmed ==> columns == old(columns)
      ensures |old(columns)| > 1 && confirmed ==> columns == WithoutColumn(old(columns), id)
      ensures newColumnName == old(newColumnName) && saving == old(saving)
    {
      if |columns| <= 1 {
        return;
      }
      if confirmed {
        columns := WithoutColumn(columns, id);
      }
    }

    /** `handleAddColumn`; `id` is the clock-derived `col_<ms>` id. */
    method HandleAddColumn(id: string)
      modifies this
      ensures columns == AddColumn(old(columns), old(newColumnName), id)
      ensures newColumnName == (if Trim(old(newColumnName)) == "" then old(newColumnName) else "")
      ensures saving == old(saving)
    {
      if Trim(newColumnName) == "" {
        return;
      }
      var newColumn := Column(id, Trim(newColumnName));
      columns := columns + [newColumn];
      newColumnName := "";
    }

    /** The save button is disabled while saving and while the list is empty. */
    predicate SaveDisabled()
      reads this
    {
      saving || |columns| == 0
    }
  }

  /** A deletion from a list of distinct ids with more than one column leaves the dialog savable. */
  lemma DeleteKeepsSavable(columns: seq<Column>, id: string)
    requires DistinctIds(columns) && |columns| > 1
    ensures |WithoutColumn(columns, id)| >= 1
  {
    DeleteRemovesAtMostOne(columns, id);
  }

  /** The inline name editor of one column. */
  class ColumnItem {
    const column: Column
    var isEditing: bool
    var editName: string

    constructor (column: Column)
      ensures this.column == column && !isEditing && editName == column.name
    {
      this.column := column;
      isEditing := false;
      editName := column.name;
    }

    /**
     * `handleSave`: a non-blank name is sent to the rename handler trimmed;
     * a blank one is reverted to the column's name.  Either way editing ends.
     */
    method HandleSave() returns (rename: Option<(string, string)>)
      modifies this
      ensures Trim(old(editName)) != "" ==> rename == Some((column.id, Trim(old(editName)))) && editName == old(editName)
      ensures Trim(old(editName)) == "" ==> rename.None? && editName == column.name
      ensures !isEditing
    {
      if Trim(editName) != "" {
        rename := Some((column.id, Trim(editName)));
      } else {
        rename := None;
        editName := column.name;
      }
      isEditing := false;
    }

    method HandleCancel()
      modifies this
      ensures editName == column.name && !isEditing
    {
      editName := column.name;
      isEditing := false;
    }
  }

  /** A saved item edit renames its column to a non-blank trimmed name and keeps every id. */
  lemma ItemSaveRenames(columns: seq<Column>, id: string, editName: string)
    requires Trim(editName) != ""
    ensures var r := RenameColumn(columns, id, Trim(editName));
      && |r| == |columns|
      && (forall i :: 0 <= i < |r| && columns[i].id == id ==> r[i].name != "" && Trim(r[i].name) == r[i].name)
  {
    TrimIdempotent(editName);
  }
}
