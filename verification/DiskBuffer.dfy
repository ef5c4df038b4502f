/** `DiskBuffer` of ftp-daemon/soltrace_daemon.py: the file that keeps the entries a send failed
    to deliver, cut to its newest `maxLines` entries. */
module DiskBuffer {
  import opened Wrappers

  /** What a write keeps: everything when `maxLines` is not positive, else the newest entries. */
  function Newest<T>(xs: seq<T>, maxLines: int): (r: seq<T>)
    ensures |r| <= |xs| && r == xs[|xs| - |r|..]
    ensures |r| == if maxLines > 0 && |xs| > maxLines then maxLines else |xs|
  {
    if maxLines > 0 && |xs| > maxLines then xs[|xs| - maxLines..] else xs
  }

  class DiskBuffer<T> {
    const maxLines: int
    /** The lines of the buffer file, None when there is no file. */
    var file: Option<seq<T>>

    constructor (maxLines: int)
      ensures this.maxLines == maxLines && file == None
    {
      this.maxLines := maxLines;
      this.file := None;
    }

    function Content(): seq<T>
      reads this
    {
      match file case None => [] case Some(xs) => xs
    }

    method Write(entries: seq<T>)
      modifies this`file
      ensures file == Some(Newest(old(Content()) + entries, maxLines))
    {
      var combined := Content() + entries;
      if maxLines > 0 && |combined| > maxLines {
        var dropped := |combined| - maxLines;
        combined := combined[dropped..];
      }
      file := Some(combined);
    }

    method ReadAndClear() returns (entries: seq<T>)
      modifies this`file
      ensures entries == old(Content()) && Content() == []
      ensures file == if entries == [] then old(file) else None
    {
      entries := Content();
      if entries != [] { file := None; }
    }

    method Exists() returns (b: bool)
      ensures b <==> Content() != []
    {
      b := file.Some? && |file.value| > 0;
    }
  }

  /** Cutting early loses nothing that a single cut at the end would keep. */
  lemma NewestAbsorbs<T>(xs: seq<T>, ys: seq<T>, maxLines: int)
    ensures Newest(Newest(xs, maxLines) + ys, maxLines) == Newest(xs + ys, maxLines)
  {
    var r := Newest(xs, maxLines);
    assert r + ys == (xs + ys)[|xs| - |r|..];
  }

  /** The file after a sequence of writes. */
  function Written<T>(content: seq<T>, writes: seq<seq<T>>, maxLines: int): seq<T>
    decreases |writes|
  {
    if writes == [] then content
    else Newest(Written(content, writes[..|writes| - 1], maxLines) + writes[|writes| - 1], maxLines)
  }

  /** Any sequence of writes leaves exactly the newest entries of their concatenation. */
  lemma {:induction false} WritesKeepNewest<T>(content: seq<T>, writes: seq<seq<T>>, maxLines: int)
    ensures Written(content, writes, maxLines)
         == if writes == [] then content else Newest(content + Concat(writes), maxLines)
    decreases |writes|
  {
    if writes != [] {
      var before, last := writes[..|writes| - 1], writes[|writes| - 1];
      WritesKeepNewest(content, before, maxLines);
      assert content + Concat(writes) == content + Concat(before) + last;
      if before == [] { assert content + Concat(before) == content; }
      NewestAbsorbs(content + Concat(before), last, maxLines);
    }
  }
}
