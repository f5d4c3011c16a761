/**
 * The gallery of overlay candidates shown under the preview: four bundled
 * stickers to start with, and one more for each image the user adds.
 */
module Gallery {
  import opened Wrappers

  /** Where an overlay's pixels come from. */
  datatype Source =
    | Bundled(path: string)     // an image imported at build time; `path` is its URL
    | Uploaded(dataUrl: string) // the data URL a file reader produced for an added file

  /** The URL an image element is pointed at for this source. */
  function Url(s: Source): string {
    match s
    case Bundled(path) => path
    case Uploaded(dataUrl) => dataUrl
  }

  /** One gallery entry. */
  datatype Entry = Entry(id: int, src: Source)

  /** The gallery a session starts with. */
  const Initial: seq<Entry> := [
    Entry(1, Bundled("selection1")),
    Entry(2, Bundled("selection2")),
    Entry(3, Bundled("selection3")),
    Entry(4, Bundled("selection4"))
  ]

  /** Entry `i` carries id `i + 1`. */
  predicate Numbered(g: seq<Entry>) {
    forall i :: 0 <= i < |g| ==> g[i].id == i + 1
  }

  /** Adding an uploaded image: the new entry takes the next id after the current length. */
  function Append(g: seq<Entry>, dataUrl: string): (r: seq<Entry>)
    ensures |r| == |g| + 1
    ensures r[..|g|] == g
    ensures r[|g|].id == |g| + 1 && r[|g|].src == Uploaded(dataUrl)
  {
    g + [Entry(|g| + 1, Uploaded(dataUrl))]
  }

  /** The first entry with the given id, as `Array.prototype.find` returns it. */
  function FindById(g: seq<Entry>, id: int): (r: Option<Entry>)
    ensures r.Some? ==> r.value in g && r.value.id == id
    ensures r.None? <==> forall i :: 0 <= i < |g| ==> g[i].id != id
  {
    if g == [] then None
    else if g[0].id == id then Some(g[0])
    else FindById(g[1..], id)
  }

  lemma InitialIsNumbered()
    ensures Numbered(Initial) && |Initial| == 4
  {
  }

  /** Appending keeps the numbering, so ids stay distinct. */
  lemma AppendKeepsNumbered(g: seq<Entry>, dataUrl: string)
    requires Numbered(g)
    ensures Numbered(Append(g, dataUrl))
  {
  }

  /** In a numbered gallery no two entries share an id. */
  lemma NumberedIdsAreDistinct(g: seq<Entry>, i: int, j: int)
    requires Numbered(g)
    requires 0 <= i < |g| && 0 <= j < |g| && g[i].id == g[j].id
    ensures i == j
  {
  }

  /** In a numbered gallery the lookup by id finds exactly entry `id - 1`, or nothing when the id is out of range. */
  lemma FindInNumbered(g: seq<Entry>, id: int)
    requires Numbered(g)
    ensures FindById(g, id) == if 1 <= id <= |g| then Some(g[id - 1]) else None
  {
    var r := FindById(g, id);
    if 1 <= id <= |g| {
      assert g[id - 1].id == id;
      var j :| 0 <= j < |g| && g[j] == r.value;
      assert j == id - 1;
    }
  }

  /** A newly added image can be looked up by the id it was given. */
  lemma AppendThenFind(g: seq<Entry>, dataUrl: string)
    requires Numbered(g)
    ensures FindById(Append(g, dataUrl), |g| + 1) == Some(Entry(|g| + 1, Uploaded(dataUrl)))
  {
    AppendKeepsNumbered(g, dataUrl);
    FindInNumbered(Append(g, dataUrl), |g| + 1);
  }

  /** Adding an image does not change what an existing id finds. */
  lemma AppendKeepsLookups(g: seq<Entry>, dataUrl: string, id: int)
    requires Numbered(g) && 1 <= id <= |g|
    ensures FindById(Append(g, dataUrl), id) == FindById(g, id)
  {
    AppendKeepsNumbered(g, dataUrl);
    FindInNumbered(g, id);
    FindInNumbered(Append(g, dataUrl), id);
  }
}
