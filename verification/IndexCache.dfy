/** The index_cache table of internal/store/index_cache.go and the JSON of its data column. */
module IndexCache {
  import opened NoteIndex

  /** A data column: what entryToJSON makes of an entry, or text that entryFromJSON refuses. */
  datatype Json = Encoded(note: NoteData, backlinkCount: int) | Garbled(text: string)

  datatype Row = Row(mtime: int, hash: string, data: Json)

  /** A row with its primary key. */
  datatype CacheRow = CacheRow(filePath: string, row: Row)

  /** The row FlushDirty makes of an entry. */
  function RowOf(note: NoteData, backlinkCount: int): CacheRow {
    CacheRow(note.path, Row(note.mtime, note.hash, Encoded(note, backlinkCount)))
  }

  /** The row stands for the entry; its backlink count may be an older one. */
  predicate Carries(row: Row, note: NoteData) {
    row.data.Encoded? && row.data.note == note && row.mtime == note.mtime && row.hash == note.hash
  }

  /** INSERT OR REPLACE of one row after the other. */
  function Upserted(rows: map<string, Row>, writes: seq<CacheRow>): map<string, Row> {
    if writes == [] then rows
    else
      var last := writes[|writes| - 1];
      Upserted(rows, writes[..|writes| - 1])[last.filePath := last.row]
  }

  class CacheTable {
    var rows: map<string, Row>

    constructor ()
      ensures rows == map[]
    {
      rows := map[];
    }

    /**
     SELECT of all rows, each once, in any order; the first row whose time does not parse, one of `badTimes`,
     ends it.
     */
    method Load(dbOk: bool, badTimes: set<string>) returns (result: seq<CacheRow>, ok: bool)
      ensures ok <==> dbOk && rows.Keys !! badTimes
      ensures ok ==> Upserted(map[], result) == rows && |result| == |rows|
      ensures ok ==> forall i, j | 0 <= i < j < |result| :: result[i].filePath != result[j].filePath
    {
      result := [];
      if !dbOk {
        return result, false;
      }
      var rest := rows.Keys;
      while rest != {}
        invariant rest <= rows.Keys && |result| + |rest| == |rows| && rows.Keys - rest !! badTimes
        invariant Upserted(map[], result) == rows - rest
        invariant forall i | 0 <= i < |result| :: result[i].filePath !in rest
        invariant forall i, j | 0 <= i < j < |result| :: result[i].filePath != result[j].filePath
        decreases |rest|
      {
        var p :| p in rest;
        if p in badTimes {
          return result, false;
        }
        rest := rest - {p};
        assert (result + [CacheRow(p, rows[p])])[..|result|] == result;
        result := result + [CacheRow(p, rows[p])];
      }
      ok := true;
    }

    /** Row by row, outside any transaction: it may stop after any number of rows. */
    method Upsert(writes: seq<CacheRow>, failAt: nat) returns (ok: bool)
      modifies this
      ensures ok <==> |writes| <= failAt
      ensures rows == Upserted(old(rows), if ok then writes else writes[..failAt])
    {
      for i := 0 to |writes|
        invariant i <= failAt && rows == Upserted(old(rows), writes[..i])
      {
        if i == failAt {
          return false;
        }
        assert writes[..i + 1][..i] == writes[..i];
        rows := rows[writes[i].filePath := writes[i].row];
      }
      assert writes[..|writes|] == writes;
      ok := true;
    }

    /** One DELETE statement for all the paths. */
    method Delete(paths: seq<string>, dbOk: bool) returns (ok: bool)
      modifies this
      ensures ok <==> dbOk || paths == []
      ensures rows == if ok then map p | p in old(rows) && p !in paths :: old(rows)[p] else old(rows)
    {
      if paths == [] {
        return true;
      }
      if dbOk {
        rows := map p | p in rows && p !in paths :: rows[p];
      }
      ok := dbOk;
    }
  }
}
