/** SST files: an id, immutable metadata, and a mark shared by all holders of the file. */
module Sst {
  import opened Types

  datatype FileMeta = FileMeta(maxSequence: u64, numRows: u32, size: u32, range: TimeRange)

  class SstFile {
    const id: u64
    const meta: FileMeta
    var inCompaction: bool

    constructor (id: u64, meta: FileMeta)
      ensures this.id == id && this.meta == meta && !inCompaction
    {
      this.id := id;
      this.meta := meta;
      this.inCompaction := false;
    }

    method MarkCompaction()
      modifies this
      ensures inCompaction
    {
      inCompaction := true;
    }

    method UnmarkCompaction()
      modifies this
      ensures !inCompaction
    {
      inCompaction := false;
    }

    predicate IsExpired(expireTime: Option<int>) {
      match expireTime
      case Some(t) => meta.range.end < t
      case None => false
    }

    function Size(): u32 { meta.size }
  }

  /** Every timestamp of an expired file, and the one after it, lies before the expire time; and a
      file that holds any timestamps and is not expired holds one for which that is not so. Without an
      expire time no file expires. */
  lemma ExpiredExactly(f: SstFile, time: int)
    ensures f.IsExpired(Some(time)) ==> forall t :: f.meta.range.Contains(t) ==> t + 1 < time
    ensures f.meta.range.NonEmpty() && !f.IsExpired(Some(time)) ==> exists t :: f.meta.range.Contains(t) && t + 1 >= time
    ensures !f.IsExpired(None)
  {
    if f.meta.range.NonEmpty() && !f.IsExpired(Some(time)) {
      assert f.meta.range.Contains(f.meta.range.end - 1);
    }
  }

  /** What a file is, without its mark. */
  datatype FileInfo = FileInfo(id: u64, meta: FileMeta)

  function Info(f: SstFile): FileInfo { FileInfo(f.id, f.meta) }

  function Infos(files: seq<SstFile>): seq<FileInfo> { seq(|files|, i requires 0 <= i < |files| => Info(files[i])) }
}
