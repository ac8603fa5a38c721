/** The harmful-chemicals list editor of the contribution form: a text field
    (`newChemical`) and the list built from it (`chemicals`). */
module AddProduct {
  import opened JsString

  /** No entry twice, and every entry trimmed and non-empty. */
  ghost predicate WellFormed(list: seq<string>)
  {
    && (forall i, j :: 0 <= i < j < |list| ==> list[i] != list[j])
    && (forall k :: 0 <= k < |list| ==> list[k] != "" && IsTrimmed(list[k]))
  }

  /** Whether the add button accepts `entry`: its trimmed form is non-empty and new. */
  predicate Accepts(list: seq<string>, entry: string)
  {
    Trim(entry) != "" && Trim(entry) !in list
  }

  /** Whitespace around the typed text never changes whether it is accepted. */
  lemma AcceptsIgnoresSurroundingSpace(list: seq<string>, entry: string)
    ensures Accepts(list, entry) == Accepts(list, Trim(entry))
  {
    TrimIdempotent(entry);
  }

  /** The list after the add button: the trimmed entry appended when accepted, otherwise
      the list unchanged. */
  function Added(list: seq<string>, entry: string): (r: seq<string>)
    ensures list <= r && |r| <= |list| + 1
    ensures |r| == |list| + 1 <==> Accepts(list, entry)
    ensures |r| == |list| + 1 ==> r[|list|] == Trim(entry)
    ensures Trim(entry) != "" ==> Trim(entry) in r
  {
    if Accepts(list, entry) then list + [Trim(entry)] else list
  }

  /** `list.filter((_, i) => i !== index)`: drops the element at `index`, if any. */
  function RemoveAt(list: seq<string>, index: int): (r: seq<string>)
    ensures 0 <= index < |list| ==> |r| == |list| - 1 && r == list[..index] + list[index + 1..]
    ensures !(0 <= index < |list|) ==> r == list
  {
    if |list| == 0 then []
    else (if index == 0 then [] else [list[0]]) + RemoveAt(list[1..], index - 1)
  }

  /** Adding preserves well-formedness. */
  lemma AddedWellFormed(list: seq<string>, entry: string)
    requires WellFormed(list)
    ensures WellFormed(Added(list, entry))
  {
    if Accepts(list, entry) {
      var t := Trim(entry);
      var r := list + [t];
      forall i, j | 0 <= i < j < |r| ensures r[i] != r[j] {
        if j == |list| {
          assert r[i] == list[i] && list[i] in list;
        } else {
          assert r[i] == list[i] && r[j] == list[j];
        }
      }
      forall k | 0 <= k < |r| ensures r[k] != "" && IsTrimmed(r[k]) {
        if k < |list| { assert r[k] == list[k]; }
      }
    }
  }

  /** Removing preserves well-formedness. */
  lemma RemoveAtWellFormed(list: seq<string>, index: int)
    requires WellFormed(list)
    ensures WellFormed(RemoveAt(list, index))
  {
    if 0 <= index < |list| {
      var r := RemoveAt(list, index);
      assert r == list[..index] + list[index + 1..];
      forall i, j | 0 <= i < j < |r| ensures r[i] != r[j] {
        var i' := if i < index then i else i + 1;
        var j' := if j < index then j else j + 1;
        assert r[i] == list[i'] && r[j] == list[j'];
      }
      forall k | 0 <= k < |r| ensures r[k] != "" && IsTrimmed(r[k]) {
        assert r[k] == list[if k < index then k else k + 1];
      }
    }
  }

  /** Pressing add twice with the same text changes the list at most once. */
  lemma AddedIdempotent(list: seq<string>, entry: string)
    ensures Added(Added(list, entry), entry) == Added(list, entry)
  {
  }

  /** Removing at the old length undoes an add: the entry just appended goes, and a
      rejected add left nothing to remove. */
  lemma RemoveUndoesAdd(list: seq<string>, entry: string)
    ensures RemoveAt(Added(list, entry), |list|) == list
  {
    if Accepts(list, entry) {
      assert (list + [Trim(entry)])[..|list|] == list;
    }
  }

  /** One user action on the list: pressing add with some text, or removing at an index. */
  datatype Edit = Add(entry: string) | Remove(index: int)

  /** The list after one action. */
  function Apply(list: seq<string>, edit: Edit): seq<string>
  {
    match edit
    case Add(e) => Added(list, e)
    case Remove(i) => RemoveAt(list, i)
  }

  /** The list after a sequence of actions, applied in order. */
  function Replay(list: seq<string>, edits: seq<Edit>): seq<string>
    decreases |edits|
  {
    if |edits| == 0 then list else Replay(Apply(list, edits[0]), edits[1..])
  }

  lemma ApplyWellFormed(list: seq<string>, edit: Edit)
    requires WellFormed(list)
    ensures WellFormed(Apply(list, edit))
  {
    match edit
    case Add(e) => AddedWellFormed(list, e);
    case Remove(i) => RemoveAtWellFormed(list, i);
  }

  lemma {:induction false} ReplayWellFormed(list: seq<string>, edits: seq<Edit>)
    requires WellFormed(list)
    decreases |edits|
    ensures WellFormed(Replay(list, edits))
  {
    if |edits| > 0 {
      ApplyWellFormed(list, edits[0]);
      ReplayWellFormed(Apply(list, edits[0]), edits[1..]);
    }
  }

  /** Any sequence of adds and removals from the empty list stays well-formed. */
  lemma EditsFromEmptyWellFormed(edits: seq<Edit>)
    ensures WellFormed(Replay([], edits))
  {
    ReplayWellFormed([], edits);
  }

  /** The form's `chemicals` and `newChemical` state. */
  class ChemicalEditor {
    var chemicals: seq<string>
    var newChemical: string

    ghost predicate Valid()
      reads this
    {
      WellFormed(chemicals)
    }

    constructor ()
      ensures Valid() && chemicals == [] && newChemical == ""
    {
      chemicals := [];
      newChemical := "";
    }

    /** The text field's `onChange`. */
    method SetNewChemical(text: string)
      requires Valid()
      modifies this
      ensures Valid() && newChemical == text && chemicals == old(chemicals)
    {
      newChemical := text;
    }

    /** `handleAddChemical`: appends the trimmed text and clears the field when accepted;
        otherwise changes nothing. */
    method AddChemical()
      requires Valid()
      modifies this
      ensures Valid()
      ensures chemicals == Added(old(chemicals), old(newChemical))
      ensures newChemical == if Accepts(old(chemicals), old(newChemical)) then "" else old(newChemical)
    {
      var entry := Trim(newChemical);
      ghost var next := Added(chemicals, newChemical);
      AddedWellFormed(chemicals, newChemical);
      if entry != "" && entry !in chemicals {
        assert next == chemicals + [entry];
        chemicals := chemicals + [entry];
        newChemical := "";
      } else {
        assert next == chemicals;
      }
    }

    /** `handleRemoveChemical`: drops the entry at `index`; an index out of range
        changes nothing. */
    method RemoveChemical(index: int)
      requires Valid()
      modifies this
      ensures Valid()
      ensures chemicals == RemoveAt(old(chemicals), index)
      ensures newChemical == old(newChemical)
    {
      RemoveAtWellFormed(chemicals, index);
      chemicals := RemoveAt(chemicals, index);
    }
  }
}
