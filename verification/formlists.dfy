/** The tag editor (`TagInput`, used for keywords and materials) and the
    contributor editor (`MakerInput`) of the admin form. */
module FormLists {
  import opened Text
  import opened Seqs
  import opened Catalog

  /** The tag editor: the current tags and the text box. */
  datatype TagDraft = TagDraft(tags: seq<string>, input: string)

  /** `addTag`: the trimmed text is appended unless it is empty or already a tag;
      the box is cleared only when a tag was added. */
  function AddTag(d: TagDraft): (r: TagDraft)
    ensures Trim(d.input) == "" || Trim(d.input) in d.tags ==> r == d
    ensures Trim(d.input) != "" && Trim(d.input) !in d.tags ==>
      r.tags == d.tags + [Trim(d.input)] && r.input == ""
  {
    var t := Trim(d.input);
    if t != "" && t !in d.tags then TagDraft(d.tags + [t], "") else d
  }

  /** `removeTag`: every occurrence of `tag` goes, the other tags stay in order. */
  function RemoveTag(tags: seq<string>, tag: string): (r: seq<string>)
    ensures tag !in r
    ensures forall x :: x != tag ==> multiset(r)[x] == multiset(tags)[x]
    ensures IsSubsequence(r, tags)
  {
    FilterCounts(t => t != tag, tags);
    Filter(t => t != tag, tags)
  }

  /** Adding never introduces a duplicate tag. */
  lemma AddTagKeepsDistinct(d: TagDraft)
    requires NoDup(d.tags)
    ensures NoDup(AddTag(d).tags)
  {
  }

  /** Adding the same text a second time changes nothing. */
  lemma AddTagIdempotent(d: TagDraft)
    ensures AddTag(TagDraft(AddTag(d).tags, d.input)).tags == AddTag(d).tags
  {
  }

  /** Removing the tag just added restores the earlier list. */
  lemma RemoveTagUndoesAdd(d: TagDraft)
    requires Trim(d.input) != "" && Trim(d.input) !in d.tags
    ensures RemoveTag(AddTag(d).tags, Trim(d.input)) == d.tags
  {
    var t := Trim(d.input);
    var p := (x: string) => x != t;
    FilterAppend(p, d.tags, t);
    FilterKeepsAll(p, d.tags);
  }

  /** A contributor has a non-blank name with no surrounding whitespace, and a role. */
  predicate MakerWellFormed(m: Maker) {
    m.name != "" && IsTrimmed(m.name) && m.role != ""
  }

  predicate MakersWellFormed(makers: seq<Maker>) {
    forall k :: 0 <= k < |makers| ==> MakerWellFormed(makers[k])
  }

  /** The contributor editor: the list plus the name and role boxes. */
  datatype MakerDraft = MakerDraft(makers: seq<Maker>, name: string, role: string)

  /** `addMaker`: a name that trims to empty changes nothing; otherwise a contributor
      with the trimmed name is appended, its role the trimmed role or `Contributor`
      when that is empty, and both boxes are cleared. */
  function AddMaker(d: MakerDraft): (r: MakerDraft)
    ensures Trim(d.name) == "" ==> r == d
    ensures Trim(d.name) != "" ==>
      && r.name == "" && r.role == ""
      && |r.makers| == |d.makers| + 1
      && r.makers[..|d.makers|] == d.makers
      && r.makers[|d.makers|].name == Trim(d.name)
      && (Trim(d.role) != "" ==> r.makers[|d.makers|].role == Trim(d.role))
      && (Trim(d.role) == "" ==> r.makers[|d.makers|].role == "Contributor")
  {
    var name := Trim(d.name);
    if name != "" then
      var role := Trim(d.role);
      MakerDraft(d.makers + [Maker(name, if role != "" then role else "Contributor")], "", "")
    else
      d
  }

  /** `removeMaker`: drops the contributor at `idx`; an index outside the list drops nothing. */
  function RemoveMaker(makers: seq<Maker>, idx: int): (r: seq<Maker>)
    ensures 0 <= idx < |makers| ==> r == makers[..idx] + makers[idx + 1..]
    ensures !(0 <= idx < |makers|) ==> r == makers
  {
    RemoveAt(makers, idx)
  }

  /** Adding keeps every contributor named and given a role. */
  lemma {:induction false} AddMakerKeepsWellFormed(d: MakerDraft)
    requires MakersWellFormed(d.makers)
    ensures MakersWellFormed(AddMaker(d).makers)
  {
    var r := AddMaker(d).makers;
    if Trim(d.name) != "" {
      var n := |d.makers|;
      NewMakerWellFormed(d);
      assert r == d.makers + [r[n]];
      forall k | 0 <= k < n ensures MakerWellFormed(r[k]) {
        assert r[k] == d.makers[k];
      }
    }
  }

  /** The contributor `addMaker` appends is well formed. */
  lemma NewMakerWellFormed(d: MakerDraft)
    requires Trim(d.name) != ""
    ensures MakerWellFormed(AddMaker(d).makers[|d.makers|])
  {
  }

  /** Removing keeps every remaining contributor named and given a role. */
  lemma RemoveMakerKeepsWellFormed(makers: seq<Maker>, idx: int)
    requires MakersWellFormed(makers)
    ensures MakersWellFormed(RemoveMaker(makers, idx))
  {
    var s := RemoveMaker(makers, idx);
    forall k | 0 <= k < |s| ensures MakerWellFormed(s[k]) {
      assert s[k] == makers[if 0 <= idx < |makers| && k >= idx then k + 1 else k];
    }
  }

  /** Removing the contributor just added restores the earlier list. */
  lemma RemoveMakerUndoesAdd(d: MakerDraft)
    requires Trim(d.name) != ""
    ensures RemoveMaker(AddMaker(d).makers, |d.makers|) == d.makers
  {
  }
}
