/** Copying one source member into the private snapshot. The operating system decides how
    much each read returns and how much each write accepts; the copy must not depend on it. */
module SnapshotCopy {
  import opened Foundations

  const CHUNK: nat := 1024 * 1024

  /** A file opened for reading: `pace` says how much the next reads return at most. */
  class Source {
    const content: Bytes
    var offset: nat
    var pace: seq<nat>

    predicate Valid()
      reads this
    {
      offset <= |content|
    }

    constructor (content: Bytes, pace: seq<nat>)
      ensures Valid() && this.content == content && offset == 0
    {
      this.content := content;
      this.offset := 0;
      this.pace := pace;
    }

    /** os.read: some non-empty piece of what is left, or nothing at the end. */
    method Read(limit: nat) returns (chunk: Bytes)
      requires Valid() && limit > 0
      modifies this
      ensures Valid() && old(offset) <= offset && |chunk| <= limit
      ensures chunk == content[old(offset)..offset]
      ensures chunk == [] <==> old(offset) == |content|
    {
      var left := |content| - offset;
      var asked := if pace == [] || pace[0] == 0 || pace[0] > limit then limit else pace[0];
      pace := if pace == [] then [] else pace[1..];
      var n := if asked < left then asked else left;
      chunk := content[offset..offset + n];
      offset := offset + n;
    }
  }

  /** A file opened for writing: `answers` is what the next writes return. */
  class Sink {
    var content: Bytes
    var answers: seq<int>

    predicate Obliging()
      reads this
    {
      forall i :: 0 <= i < |answers| ==> answers[i] > 0
    }

    constructor (answers: seq<int>)
      ensures content == [] && this.answers == answers
    {
      content := [];
      this.answers := answers;
    }

    /** os.write: accepts a prefix, possibly a short one, possibly nothing. */
    method Write(view: Bytes) returns (written: int)
      requires view != []
      modifies this
      ensures written <= |view|
      ensures content == old(content) + if written > 0 then view[..written] else []
      ensures old(Obliging()) ==> Obliging() && written > 0
    {
      if answers == [] {
        written := |view|;
      } else {
        written := if answers[0] < |view| then answers[0] else |view|;
        answers := answers[1..];
      }
      if written > 0 {
        content := content + view[..written];
      }
    }
  }

  /** hashlib.sha256(): absorbs pieces, answers for their concatenation. */
  class Hasher {
    var absorbed: Bytes

    constructor ()
      ensures absorbed == []
    {
      absorbed := [];
    }

    method Update(chunk: Bytes)
      modifies this
      ensures absorbed == old(absorbed) + chunk
    {
      absorbed := absorbed + chunk;
    }

    function HexDigest(): Digest
      reads this
    {
      Sha256(absorbed)
    }
  }

  /** The whole payload arrives, or the write fails with a proper prefix of it on disk. */
  method WriteAll(sink: Sink, payload: Bytes) returns (ok: bool)
    modifies sink
    ensures ok ==> sink.content == old(sink.content) + payload
    ensures !ok ==> exists n :: 0 <= n < |payload| && sink.content == old(sink.content) + payload[..n]
    ensures old(sink.Obliging()) ==> sink.Obliging() && ok
  {
    var view := payload;
    ghost var done: nat := 0;
    while view != []
      invariant done <= |payload| && view == payload[done..]
      invariant sink.content == old(sink.content) + payload[..done]
      invariant old(sink.Obliging()) ==> sink.Obliging()
      decreases |view|
    {
      var written := sink.Write(view);
      if written <= 0 {
        return false;
      }
      assert payload[..done] + view[..written] == payload[..done + written];
      done := done + written;
      view := view[written..];
    }
    assert payload[..done] == payload;
    return true;
  }

  /** Whatever the pace of reads and the length of writes, a copy that succeeds is byte for
      byte the source, and the size and digest it returns are those of the whole content; a
      copy that fails leaves a proper prefix of the source. It only fails on a refused write. */
  method CopyToSnapshot(source: Source, sink: Sink) returns (copied: Option<(nat, Digest)>)
    requires source.Valid() && source.offset == 0 && sink.content == []
    modifies source, sink
    ensures copied.Some? ==> sink.content == source.content
    ensures copied.Some? ==> copied.value == (|sink.content|, Sha256(source.content))
    ensures copied.None? ==> |sink.content| < |source.content| && sink.content <= source.content
    ensures old(sink.Obliging()) ==> copied.Some?
  {
    var digest := new Hasher();
    var size: nat := 0;
    while true
      invariant source.Valid() && source.offset == size
      invariant sink.content == source.content[..source.offset]
      invariant digest.absorbed == source.content[..source.offset]
      invariant old(sink.Obliging()) ==> sink.Obliging()
      invariant fresh(digest)
      decreases |source.content| - source.offset
    {
      var before := source.offset;
      var chunk := source.Read(CHUNK);
      if chunk == [] {
        break;
      }
      assert source.content[..before] + chunk == source.content[..source.offset];
      digest.Update(chunk);
      size := size + |chunk|;
      var ok := WriteAll(sink, chunk);
      if !ok {
        ghost var n :| 0 <= n < |chunk| && sink.content == source.content[..before] + chunk[..n];
        assert sink.content == source.content[..before + n];
        return None;
      }
    }
    assert source.content[..source.offset] == source.content;
    return Some((size, digest.HexDigest()));
  }
}
