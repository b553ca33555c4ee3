/**
 The client's durable state: the files under the destination and the saved download rows.

 A write past the end of a file zero-fills the gap and a write never truncates. Every change goes
 through one of four primitives, each of which records the state it leaves behind, so that a
 process stop at any point corresponds to one of the recorded instants.
 */
module Storage {
  import opened Hashing
  import opened Paths

  type Files = map<Path, Data>

  datatype DownloadRow = DownloadRow(chunkCount: nat, bitmap: seq<bv8>, status: string, dest: string,
      error: Option<string>)

  /** A download is keyed by title and manifest version. */
  datatype Key = Key(titleId: nat, manifestVer: nat)

  type Rows = map<Key, DownloadRow>

  datatype Instant = Instant(files: Files, rows: Rows)

  // ----- file contents -----

  function Zeroes(n: nat): (z: Data)
    ensures |z| == n
  {
    seq(n, _ => 0)
  }

  /** The content after writing `data` at `offset`; writing no bytes changes nothing. */
  function Splice(content: Data, offset: nat, data: Data): (r: Data)
    ensures |r| == if data == [] then |content| else if offset + |data| < |content| then |content| else offset + |data|
  {
    if data == [] then content
    else
      var before := if |content| < offset then content + Zeroes(offset - |content|) else content[..offset];
      before + data + if offset + |data| < |content| then content[offset + |data|..] else []
  }

  /** The bytes just written read back. */
  lemma SpliceReadsBack(content: Data, offset: nat, data: Data)
    requires data != []
    ensures Splice(content, offset, data)[offset..offset + |data|] == data
  {
  }

  /** Bytes outside the written range are unchanged. */
  lemma SpliceKeeps(content: Data, offset: nat, data: Data, at: nat, n: nat)
    requires at + n <= |content|
    requires at + n <= offset || offset + |data| <= at
    ensures at + n <= |Splice(content, offset, data)|
    ensures Splice(content, offset, data)[at..at + n] == content[at..at + n]
  {
  }

  /** Byte by byte: the written bytes in their range, the old ones elsewhere, and zeros in a gap before the range. */
  lemma SpliceAt(content: Data, offset: nat, data: Data, i: nat)
    requires data != [] && i < |Splice(content, offset, data)|
    ensures Splice(content, offset, data)[i] ==
              if offset <= i < offset + |data| then data[i - offset] else if i < |content| then content[i] else 0
  {
  }

  /** Rewriting a prefix of what is already there changes nothing. */
  lemma SpliceSamePrefix(content: Data, offset: nat, data: Data, k: nat)
    requires k <= |data| && offset + |data| <= |content|
    requires content[offset..offset + |data|] == data
    ensures Splice(content, offset, data[..k]) == content
  {
  }

  function ContentOf(files: Files, path: Path): Data {
    if path in files then files[path] else []
  }

  /** Open (creating the file if needed), seek, write. */
  function WriteAt(files: Files, path: Path, offset: nat, data: Data): Files {
    files[path := Splice(ContentOf(files, path), offset, data)]
  }

  /** A read of exactly `size` bytes at `offset`. */
  function ReadExact(files: Files, path: Path, offset: nat, size: nat): (r: Option<Data>)
    ensures r.Some? ==> |r.value| == size
  {
    if path !in files then None
    else if size == 0 then Some([])
    else if offset + size <= |files[path]| then Some(files[path][offset..offset + size])
    else None
  }

  // ----- the machine -----

  class Machine {
    var files: Files
    var rows: Rows
    ghost var instants: seq<Instant>

    constructor (files: Files, rows: Rows)
      ensures this.files == files && this.rows == rows && instants == [Instant(files, rows)]
    {
      this.files := files;
      this.rows := rows;
      instants := [Instant(files, rows)];
    }

    method Write(path: Path, offset: nat, data: Data)
      modifies this
      ensures files == WriteAt(old(files), path, offset, data) && rows == old(rows)
      ensures instants == old(instants) + [Instant(files, rows)]
    {
      files := WriteAt(files, path, offset, data);
      instants := instants + [Instant(files, rows)];
    }

    method Create(path: Path)
      modifies this
      ensures files == old(files)[path := ContentOf(old(files), path)] && rows == old(rows)
      ensures instants == old(instants) + [Instant(files, rows)]
    {
      files := files[path := ContentOf(files, path)];
      instants := instants + [Instant(files, rows)];
    }

    method Truncate(path: Path, len: nat)
      requires path in files && len <= |files[path]|
      modifies this
      ensures files == old(files)[path := old(files)[path][..len]] && rows == old(rows)
      ensures instants == old(instants) + [Instant(files, rows)]
    {
      files := files[path := files[path][..len]];
      instants := instants + [Instant(files, rows)];
    }

    /** Insert or replace the row of one key. */
    method SaveRow(key: Key, row: DownloadRow)
      modifies this
      ensures files == old(files) && rows == old(rows)[key := row]
      ensures instants == old(instants) + [Instant(files, rows)]
    {
      rows := rows[key := row];
      instants := instants + [Instant(files, rows)];
    }
  }
}
