/** The client-side record of an archive object (the shape the React app keeps in
    its `objects` state and edits in the admin form). */
module Catalog {

  /** One entry of an object's `images` list. */
  datatype Image = Image(url: string, caption: string, isPrimary: bool)

  /** One entry of an object's `makers` list (a contributor and their role). */
  datatype Maker = Maker(name: string, role: string)

  /** An archive object. Text fields hold `""` where the JavaScript object has the
      field missing or empty; list fields hold `[]` where it is missing. The
      remaining free-text fields the form carries (dating, dimensions, condition,
      location, provenance, acquisition, donor, accession number, notes) are kept
      by name in `details`. */
  datatype ArchiveObject = ArchiveObject(
    id: string,
    title: string,
    alternateTitle: string,
    aboutText: string,
    objectType: string,
    collection: string,
    images: seq<Image>,
    keywords: seq<string>,
    materials: seq<string>,
    makers: seq<Maker>,
    details: map<string, string>,
    createdAt: string,
    updatedAt: string)

  /** The `name` of every maker, in order (`makers.map(m => m.name)`). */
  function MakerNames(makers: seq<Maker>): (r: seq<string>)
    ensures |r| == |makers|
    ensures forall k :: 0 <= k < |makers| ==> r[k] == makers[k].name
  {
    seq(|makers|, k requires 0 <= k < |makers| => makers[k].name)
  }
}
