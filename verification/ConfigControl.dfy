/** The write boundary of the configuration file: a document with its baseline, and
    the method that merges it into the file. */
module ConfigControl {
  import opened SafeWrite
  import opened ConfigMerge
  import opened ConfigMergeProofs

  /** What reading and parsing the file gives.  `Broken` covers an unreadable file
      and a top level that is neither a mapping nor empty. */
  datatype Content = Missing | Broken | Loaded(value: Value)

  datatype WriteResult = Persisted | NotAMapping | LoadFailed | WriteFailed | ReadBackDiffers

  /** `_load_mapping`; None means that it raised. */
  function LoadMapping(c: Content): Option<Value> {
    match c
    case Missing => Some(Obj(map[]))
    case Broken => None
    case Loaded(v) => if v.Obj? then Some(v) else None
  }

  /** An editable snapshot of the file. */
  class Document {
    var value: Value
    var original: Value

    constructor (v: Value)
      ensures value == v && original == v
    {
      value, original := v, v;
    }
  }

  class ConfigFile {
    var content: Content

    constructor (c: Content)
      ensures content == c
    {
      content := c;
    }

    /** `read_config_file`. */
    method Read() returns (d: Document?)
      ensures d == null <==> LoadMapping(content).None?
      ensures d != null ==> fresh(d) && d.value == d.original == LoadMapping(content).value
    {
      var v := LoadMapping(content);
      if v.None? { return null; }
      d := new Document(v.value);
    }

    /** Applies every changed path to a copy of the file's content. */
    method MergeInto(baseline: Value, updated: Value, current: Value) returns (merged: Value)
      ensures merged == Merge(baseline, updated, current)
    {
      var changed := ChangedPaths(baseline, updated, []);
      ghost var edits := EditsOf(baseline, updated);
      merged := current;
      assert edits[..0] == [];
      for i := 0 to |changed|
        invariant merged == ApplyAll(current, edits[..i])
      {
        assert edits[..i + 1][..i] == edits[..i];
        merged := Assign(merged, changed[i], ValueAt(updated, changed[i]));
      }
      assert edits[..|changed|] == edits;
    }

    /** `write_config_file` for a document.  `written` says whether the atomic write
        succeeded, `readBack` what the check after it reads.  On success the document
        is rebased on what was written; on failure it keeps its edits. */
    method WriteDocument(d: Document, written: bool, readBack: Content) returns (r: WriteResult)
      requires d.original.Obj?
      modifies this, d
      ensures !old(d.value).Obj? ==> r == NotAMapping
      ensures old(d.value).Obj? && LoadMapping(old(content)).None? ==> r == LoadFailed
      ensures r == Persisted || r == ReadBackDiffers ==>
        && old(d.value).Obj? && LoadMapping(old(content)).Some?
        && content == Loaded(Merge(old(d.original), old(d.value), LoadMapping(old(content)).value))
      ensures r != Persisted && r != ReadBackDiffers ==> content == old(content)
      ensures r == Persisted ==> LoadMapping(content) == Some(d.value) && d.original == d.value
      ensures r == Persisted <==> (
        && old(d.value).Obj? && LoadMapping(old(content)).Some? && written
        && LoadMapping(readBack) == Some(Merge(old(d.original), old(d.value), LoadMapping(old(content)).value)))
      ensures r != Persisted ==> d.value == old(d.value) && d.original == old(d.original)
    {
      if !d.value.Obj? { return NotAMapping; }
      var current := LoadMapping(content);
      if current.None? { return LoadFailed; }
      var merged := MergeInto(d.original, d.value, current.value);
      MergeStaysMapping(d.original, d.value, current.value);
      if !written { return WriteFailed; }
      content := Loaded(merged);
      if LoadMapping(readBack) != Some(merged) { return ReadBackDiffers; }
      d.value, d.original := merged, merged;
      return Persisted;
    }

    /** The same for a plain mapping, whose baseline is the file itself: it replaces
        the whole content. */
    method WritePlain(updated: Value, written: bool, readBack: Content) returns (r: WriteResult)
      modifies this
      ensures r == NotAMapping <==> !updated.Obj?
      ensures r == LoadFailed <==> updated.Obj? && LoadMapping(old(content)).None?
      ensures r == Persisted <==>
        updated.Obj? && LoadMapping(old(content)).Some? && written && LoadMapping(readBack) == Some(updated)
      ensures r in {Persisted, ReadBackDiffers} ==> content == Loaded(updated)
      ensures r in {NotAMapping, LoadFailed, WriteFailed} ==> content == old(content)
    {
      if !updated.Obj? { return NotAMapping; }
      var current := LoadMapping(content);
      if current.None? { return LoadFailed; }
      var merged := MergeInto(current.value, updated, current.value);
      RoundTrip(current.value, updated);
      if !written { return WriteFailed; }
      content := Loaded(merged);
      return if LoadMapping(readBack) == Some(merged) then Persisted else ReadBackDiffers;
    }
  }

  lemma MergeStaysMapping(baseline: Value, updated: Value, current: Value)
    requires baseline.Obj? && updated.Obj? && current.Obj?
    ensures Merge(baseline, updated, current).Obj?
  {
    MergeEffect(baseline, updated, current, []);
    assert ShapeAt(current, []) == Node;
    assert (forall p :: Changed(baseline, updated, p) ==> !Comparable(p, [])) || (exists p :: Changed(baseline, updated, p) && [] <= p && [] != p);
  }
}
