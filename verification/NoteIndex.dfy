/** The in-memory index of internal/index/index.go: entries by path, each with a dirty flag. */
module NoteIndex {
  /** The fields of NoteEntry that are fixed once the entry is in the index. */
  datatype NoteData = NoteData(
    path: string,
    title: string,
    aliases: seq<string>,
    tags: seq<string>,
    mtime: int,
    hash: string,
    headings: seq<string>,
    links: seq<string>)

  /** What the index holds at a path: a pointer, and the flag of the entry it points to. */
  datatype Cell = Cell(entry: NoteEntry, dirty: bool)

  /** A NoteEntry, shared by pointer; callers may not change `note` after Update, so it is a constant. */
  class NoteEntry {
    const note: NoteData
    var backlinkCount: int
    var dirty: bool

    constructor (note: NoteData, backlinkCount: int, dirty: bool)
      ensures this.note == note && this.backlinkCount == backlinkCount && this.dirty == dirty
    {
      this.note := note;
      this.backlinkCount := backlinkCount;
      this.dirty := dirty;
    }
  }

  /** `cp` carries what `e` carries. */
  ghost predicate IsCopy(cp: NoteEntry, e: NoteEntry)
    reads cp, e
  {
    cp.note == e.note && cp.backlinkCount == e.backlinkCount && cp.dirty == e.dirty
  }

  class Index {
    var entries: map<string, NoteEntry>

    ghost predicate Valid()
      reads this
    {
      forall p | p in entries :: entries[p].note.path == p
    }

    /** The objects the index holds. */
    ghost function Objects(): (r: set<NoteEntry>)
      reads this
      ensures forall p | p in entries :: entries[p] in r
    {
      set p | p in entries :: entries[p]
    }

    /** The pointers and flags. */
    ghost function Cells(): map<string, Cell>
      reads this, Objects()
    {
      map p | p in entries :: Cell(entries[p], entries[p].dirty)
    }

    /** What is indexed, pointers and flags aside. */
    ghost function Notes(): map<string, NoteData>
      reads this
    {
      map p | p in entries :: entries[p].note
    }

    constructor ()
      ensures Valid() && entries == map[]
    {
      entries := map[];
    }

    /** The one entry of that path; nil exactly if the index holds none. */
    method Get(path: string) returns (entry: NoteEntry?)
      requires Valid()
      ensures entry == null <==> forall e | e in Objects() :: e.note.path != path
      ensures entry != null
        ==> entry in Objects() && entry.note.path == path && forall e | e in Objects() && e.note.path == path ::
        e == entry
    {
      return if path in entries then entries[path] else null;
    }

    /** Insert or replace, and mark dirty. The pointer itself is stored. */
    method Update(entry: NoteEntry)
      requires Valid()
      modifies this, entry`dirty
      ensures Valid() && entries == old(entries)[entry.note.path := entry]
      ensures Cells() == old(Cells())[entry.note.path := Cell(entry, true)]
    {
      entry.dirty := true;
      entries := entries[entry.note.path := entry];
    }

    method Delete(path: string)
      requires Valid()
      modifies this
      ensures Valid() && entries == old(entries) - {path} && Cells() == old(Cells()) - {path}
    {
      entries := entries - {path};
    }

    /** Copies of all entries, in whatever order the map yields them; no copy is an entry of the index. */
    method All() returns (result: seq<NoteEntry>, ghost order: seq<string>)
      requires Valid()
      ensures |result| == |order| == |entries| && forall p :: p in order <==> p in entries
      ensures forall i | 0 <= i < |order| :: fresh(result[i]) && IsCopy(result[i], entries[order[i]])
    {
      result, order := [], [];
      var rest := entries.Keys;
      while rest != {}
        invariant rest <= entries.Keys && |result| == |order| && |order| + |rest| == |entries|
        invariant forall p :: p in order <==> p in entries && p !in rest
        invariant forall i | 0 <= i < |order| :: fresh(result[i]) && IsCopy(result[i], entries[order[i]])
        decreases |rest|
      {
        var p :| p in rest;
        var cp := new NoteEntry(entries[p].note, entries[p].backlinkCount, entries[p].dirty);
        result, order := result + [cp], order + [p];
        rest := rest - {p};
      }
    }
  }
}
