/** The blob service of engine/pkg/blobs: the writer cuts what it is given into chunks, the
    reader puts chunks back together in whatever pieces its caller asks for, and the server
    publishes a file all or nothing. */
module Blobs {
  import opened Common

  type Byte = b: int | 0 <= b < 256 witness 0
  type Bytes = seq<Byte>

  function Flat(chunks: seq<Bytes>): Bytes {
    if chunks == [] then [] else Flat(chunks[..|chunks| - 1]) + chunks[|chunks| - 1]
  }

  lemma FlatAppend(chunks: seq<Bytes>, c: Bytes)
    ensures Flat(chunks + [c]) == Flat(chunks) + c
  {
    assert (chunks + [c])[..|chunks|] == chunks;
  }

  lemma {:induction false} FlatFront(chunks: seq<Bytes>)
    requires chunks != []
    ensures Flat(chunks) == chunks[0] + Flat(chunks[1..])
  {
    var n := |chunks| - 1;
    if n > 0 {
      FlatFront(chunks[..n]);
      assert chunks[..n][1..] == chunks[1..][..n - 1];
    }
  }

  predicate ChunksFit(chunks: seq<Bytes>, chunkSize: nat) {
    forall i :: 0 <= i < |chunks| ==> 1 <= |chunks[i]| <= chunkSize
  }

  // ---------- sending ----------

  lemma NextPiece(p: Bytes, n: nat, l: nat)
    requires n + l <= |p|
    ensures p[n..][..l] == p[n..n + l] && p[n..][l..] == p[n + l..]
  {}

  /** One more piece of p on the stream. */
  lemma PieceSent(sent: seq<Bytes>, before: Bytes, p: Bytes, n: nat, l: nat)
    requires n + l <= |p| && Flat(sent) == before + p[..n]
    ensures Flat(sent + [p[n..n + l]]) == before + p[..n + l]
  {
    FlatAppend(sent, p[n..n + l]);
    assert p[..n + l] == p[..n] + p[n..n + l];
  }

  /** streamWriter of client.go. */
  class StreamWriter {
    const chunkSize: nat
    var sent: seq<Bytes>

    constructor (chunkSize: nat)
      ensures this.chunkSize == chunkSize && sent == []
    {
      this.chunkSize := chunkSize;
      sent := [];
    }

    /** Write sends p in pieces of at most chunkSize bytes; Send may fail at any piece. */
    method Write(p: Bytes) returns (n: nat, ok: bool)
      requires chunkSize > 0 && ChunksFit(sent, chunkSize)
      modifies this`sent
      ensures ChunksFit(sent, chunkSize) && old(sent) <= sent
      ensures n <= |p| && Flat(sent) == Flat(old(sent)) + p[..n]
      ensures ok <==> n == |p|
    {
      n := 0;
      var rest := p;
      while |rest| > 0
        invariant n <= |p| && rest == p[n..]
        invariant ChunksFit(sent, chunkSize) && old(sent) <= sent
        invariant Flat(sent) == Flat(old(sent)) + p[..n]
        decreases |rest|
      {
        var l := if |rest| < chunkSize then |rest| else chunkSize;
        var payload := rest[..l];
        NextPiece(p, n, l);
        rest := rest[l..];
        var fails: bool := *;
        if fails {
          return n, false;
        }
        PieceSent(sent, Flat(old(sent)), p, n, l);
        sent := sent + [payload];
        n := n + l;
      }
      return n, true;
    }
  }

  datatype ReadEnd = NoError | EndOfFile | Failed

  /** One answer of an io.Reader. */
  datatype ReadResult = ReadResult(data: Bytes, end: ReadEnd)

  function Payloads(rs: seq<ReadResult>): seq<Bytes> {
    if rs == [] then []
    else Payloads(rs[..|rs| - 1]) + if rs[|rs| - 1].data == [] then [] else [rs[|rs| - 1].data]
  }

  /** An empty answer with an error. */
  predicate Stops(r: ReadResult) { r.data == [] && r.end != NoError }

  /** The error a round of streamContent ends up with: when there is data, Send's result takes the
      place of the reader's. */
  function RoundEnd(r: ReadResult, send: ReadEnd): ReadEnd { if r.data != [] then send else r.end }

  /** streamContent of stream.go on a reader that gives these answers into a buffer of chunkSize
      bytes; sends[i] is what Send makes of the i-th answer. The end is EndOfFile for nil and
      NoError while the answers have not run out. */
  method StreamContent(answers: seq<ReadResult>, sends: seq<ReadEnd>, chunkSize: nat)
    returns (sent: seq<Bytes>, n: nat, end: ReadEnd)
    requires |sends| == |answers| && forall i :: 0 <= i < |answers| ==> |answers[i].data| <= chunkSize
    ensures n <= |answers| && (forall i :: 0 <= i < n ==> RoundEnd(answers[i], sends[i]) == NoError)
    ensures end == if n < |answers| then RoundEnd(answers[n], sends[n]) else NoError
    ensures n < |answers| ==> end != NoError
    ensures sent == Payloads(answers[..n]) && ChunksFit(sent, chunkSize)
  {
    sent, n := [], 0;
    while n < |answers|
      invariant n <= |answers| && sent == Payloads(answers[..n]) && ChunksFit(sent, chunkSize)
      invariant forall i :: 0 <= i < n ==> RoundEnd(answers[i], sends[i]) == NoError
    {
      var r := answers[n];
      var err := r.end;
      if |r.data| > 0 {
        err := sends[n];   // the reader's own error is overwritten by Send's
      }
      if err != NoError {
        return sent, n, err;
      }
      assert answers[..n + 1][..n] == answers[..n];
      if |r.data| > 0 {
        sent := sent + [r.data];
      }
      n := n + 1;
    }
    end := NoError;
  }

  // ---------- receiving ----------

  lemma ChunkSplit(given: Bytes, payload: Bytes, n: nat, after: Bytes)
    requires n <= |payload|
    ensures given + (payload + after) == given + payload[..n] + (payload[n..] + after)
    ensures n == |payload| ==> payload[n..] + after == after && payload[..n] == payload
  {
    assert payload == payload[..n] + payload[n..];
  }

  lemma CutCached(payload: Bytes, offset: nat, k: nat, rest: Bytes)
    requires offset + k <= |payload|
    ensures payload[offset..][..k] + (payload[offset + k..] + rest) == payload[offset..] + rest
  {
    assert payload[offset..] == payload[offset..][..k] + payload[offset + k..];
  }

  /** blobStreamReader of stream.go.  incoming is what the peer has sent and is still to be
      received; the stream ends in io.EOF or in an error. */
  class BlobStreamReader {
    var lastPayload: Option<Bytes>
    var lastOffset: nat
    var eofReached: bool
    var incoming: seq<Bytes>
    const broken: bool

    ghost predicate Valid()
      reads this
    {
      && (lastPayload.Some? ==> lastOffset < |lastPayload.value|)
      && (eofReached ==> lastPayload.None? && incoming == [] && !broken)
    }

    /** Bytes received or still to come that no caller has been given. */
    ghost function Remaining(): Bytes
      requires Valid()
      reads this
    {
      (if lastPayload.Some? then lastPayload.value[lastOffset..] else []) + Flat(incoming)
    }

    constructor (incoming: seq<Bytes>, broken: bool)
      ensures Valid() && Remaining() == Flat(incoming) && this.broken == broken && !eofReached
    {
      this.incoming, this.broken := incoming, broken;
      lastPayload, lastOffset, eofReached := None, 0, false;
    }

    /** copy(out[at:], src) of exactly |src| bytes. */
    method CopyTo(out: array<Byte>, at: nat, src: Bytes)
      requires at + |src| <= out.Length
      modifies out
      ensures out[..at] == old(out[..at]) && out[at..at + |src|] == src
      ensures out[..at + |src|] == old(out[..at]) + src
    {
      forall k | 0 <= k < |src| {
        out[at + k] := src[k];
      }
      assert out[..at + |src|] == out[..at] + out[at..at + |src|];
    }

    /** The part of Read that serves the cached payload. */
    method ServeCached(out: array<Byte>) returns (offset: nat, full: bool)
      requires Valid()
      modifies this`lastPayload, this`lastOffset, out
      ensures Valid() && offset <= out.Length && out[..offset] + Remaining() == old(Remaining())
      ensures full ==> offset == out.Length
      ensures !full ==> lastPayload.None?
      ensures eofReached == old(eofReached) && incoming == old(incoming)
    {
      offset, full := 0, false;
      if lastPayload.Some? {
        var cached := lastPayload.value[lastOffset..];
        offset := |cached|;
        if out.Length < offset {
          CutCached(lastPayload.value, lastOffset, out.Length, Flat(incoming));
          CopyTo(out, 0, cached[..out.Length]);
          lastOffset := lastOffset + out.Length;
          return out.Length, true;
        }
        CopyTo(out, 0, cached);
        lastPayload := None;
      }
    }

    /** Receive one chunk: copy what fits and cache the payload if some of it does not. */
    method TakeChunk(out: array<Byte>, offset: nat) returns (next: nat)
      requires Valid() && lastPayload.None? && incoming != [] && offset < out.Length && !eofReached
      modifies this`lastPayload, this`lastOffset, this`incoming, out
      ensures Valid() && offset <= next <= out.Length && incoming == old(incoming)[1..]
      ensures next < out.Length ==> lastPayload.None?
      ensures out[..next] + Remaining() == old(out[..offset]) + old(Remaining())
    {
      FlatFront(incoming);
      var payload := incoming[0];
      ghost var given, after := out[..offset], Flat(incoming[1..]);
      incoming := incoming[1..];
      var lenToWrite := |payload|;
      if out.Length - offset < |payload| {
        lenToWrite := out.Length - offset;
        lastPayload, lastOffset := Some(payload), lenToWrite;
      }
      ChunkSplit(given, payload, lenToWrite, after);
      assert Valid() && Remaining() == payload[lenToWrite..] + after;
      CopyTo(out, offset, payload[..lenToWrite]);
      next := offset + lenToWrite;
    }

    method Read(out: array<Byte>) returns (n: nat, err: ReadEnd)
      requires Valid()
      modifies this, out
      ensures Valid() && n <= out.Length
      ensures out[..n] + Remaining() == old(Remaining())
      ensures err == EndOfFile <==> old(eofReached)
      ensures err == EndOfFile ==> n == 0 && Remaining() == []
      ensures err == Failed ==> broken && incoming == [] && lastPayload.None?
      ensures err == NoError && n < out.Length ==> eofReached
      ensures old(eofReached) ==> eofReached
    {
      if eofReached {
        return 0, EndOfFile;
      }
      var offset, full := ServeCached(out);
      if full {
        return offset, NoError;
      }
      while offset < out.Length
        invariant Valid() && 0 <= offset <= out.Length && !eofReached
        invariant offset < out.Length ==> lastPayload.None?
        invariant out[..offset] + Remaining() == old(Remaining())
        decreases |incoming|, out.Length - offset
      {
        if incoming == [] {
          if broken {
            return offset, Failed;
          }
          eofReached := true;
          break;
        }
        offset := TakeChunk(out, offset);
      }
      return offset, NoError;
    }
  }

  predicate FirstError(answers: seq<ReadResult>, k: nat) {
    k < |answers| && answers[k].end != NoError && forall i :: 0 <= i < k ==> answers[i].end == NoError
  }

  /** The reader's first error comes with data, and the first empty answer with an error behind it
      carries another one. */
  ghost predicate Masked(answers: seq<ReadResult>, k: nat)
    requires k < |answers|
  {
    && answers[k].data != []
    && exists n :: k < n < |answers| && Stops(answers[n]) && answers[n].end != answers[k].end
         && forall i :: k < i < n ==> !Stops(answers[i])
  }

  /** A well-behaved io.Reader: after an error it answers with nothing and the same error. */
  predicate ErrorsPersist(answers: seq<ReadResult>) {
    forall i :: 0 <= i < |answers| - 1 && answers[i].end != NoError ==> answers[i + 1] == ReadResult([], answers[i].end)
  }

  /** A reader that never gives an error together with data, as os.File does: a read that returns
      bytes returns no error. This is the reader of GetStream. */
  predicate ErrorsAlone(answers: seq<ReadResult>) {
    forall i :: 0 <= i < |answers| && answers[i].end != NoError ==> answers[i].data == []
  }

  /** As long as Send succeeds, streamContent returns the reader's first error for every reader that
      gives errors alone or repeats them; for any other reader, if and only if that error is not
      masked. */
  lemma FirstErrorReturned(answers: seq<ReadResult>, n: nat, k: nat)
    requires FirstError(answers, k)
    requires n < |answers| && Stops(answers[n]) && forall i :: 0 <= i < n ==> !Stops(answers[i])
    ensures ErrorsAlone(answers) || ErrorsPersist(answers) ==> answers[n].end == answers[k].end
    ensures answers[n].end == answers[k].end <==> !Masked(answers, k)
  {
    assert n >= k;
    if answers[k].data == [] {
      assert n == k;
    } else if ErrorsPersist(answers) {
      assert answers[k + 1] == ReadResult([], answers[k].end) && Stops(answers[k + 1]);
    }
  }

  /** Readers that break the rule are not heard: after any answers without an error, an error that
      comes with data and is followed by end of file makes streamContent return nil, as if the
      content were complete. */
  method TransientErrorDropped(good: seq<ReadResult>, data: Bytes, chunkSize: nat) returns (end: ReadEnd)
    requires data != [] && |data| <= chunkSize
    requires forall i :: 0 <= i < |good| ==> good[i].end == NoError && |good[i].data| <= chunkSize
    ensures end == EndOfFile
    ensures var answers := good + [ReadResult(data, Failed), ReadResult([], EndOfFile)];
      FirstError(answers, |good|) && answers[|good|].end == Failed && Masked(answers, |good|)
  {
    var answers := good + [ReadResult(data, Failed), ReadResult([], EndOfFile)];
    var sent, n;
    sent, n, end := StreamContent(answers, seq(|answers|, _ => NoError), chunkSize);
    var k := |good|;
    assert answers[k] == ReadResult(data, Failed) && answers[k + 1] == ReadResult([], EndOfFile);
    assert forall i :: 0 <= i < k ==> answers[i] == good[i];
    assert RoundEnd(answers[k + 1], NoError) == EndOfFile;
    assert n == k + 1;
    assert Stops(answers[k + 1]);
  }

  /** The sending side: any sequence of writes, the last of which may fail. */
  method SendAll(chunkSize: nat, writes: seq<Bytes>) returns (sent: seq<Bytes>, broken: bool)
    requires chunkSize > 0
    ensures ChunksFit(sent, chunkSize) && Flat(sent) <= Flat(writes)
    ensures !broken ==> Flat(sent) == Flat(writes)
  {
    var w := new StreamWriter(chunkSize);
    broken := false;
    var i := 0;
    while i < |writes| && !broken
      invariant 0 <= i <= |writes| && ChunksFit(w.sent, chunkSize) && w.chunkSize == chunkSize
      invariant Flat(w.sent) <= Flat(writes[..i]) && (!broken ==> Flat(w.sent) == Flat(writes[..i]))
      decreases |writes| - i
    {
      assert writes[..i + 1][..i] == writes[..i];
      var n, ok := w.Write(writes[i]);
      assert ok ==> writes[i][..n] == writes[i];
      broken := !ok;
      i := i + 1;
    }
    FlatPrefix(writes, i);
    assert writes[..|writes|] == writes;
    sent := w.sent;
  }

  /** The receiving side: any sequence of buffer sizes. */
  method ReceiveAll(sent: seq<Bytes>, broken: bool, readSizes: seq<nat>) returns (delivered: Bytes, sawEof: bool)
    ensures delivered <= Flat(sent)
    ensures sawEof ==> delivered == Flat(sent) && !broken
  {
    var r := new BlobStreamReader(sent, broken);
    delivered, sawEof := [], false;
    for k := 0 to |readSizes|
      invariant r.Valid() && r.broken == broken
      invariant delivered + r.Remaining() == Flat(sent)
      invariant sawEof ==> r.eofReached
    {
      var out := new Byte[readSizes[k]];
      ghost var before := delivered;
      var n, err := r.Read(out);
      delivered := delivered + out[..n];
      assert before + (out[..n] + r.Remaining()) == delivered + r.Remaining();
      sawEof := sawEof || err == EndOfFile;
    }
  }

  /** Any writes on one side, any reads on the other: what is delivered is an initial piece of
      what was written, and all of it once the reader says end of file. */
  method Transfer(chunkSize: nat, writes: seq<Bytes>, readSizes: seq<nat>)
    returns (delivered: Bytes, sawEof: bool)
    requires chunkSize > 0
    ensures delivered <= Flat(writes)
    ensures sawEof ==> delivered == Flat(writes)
  {
    var sent, broken := SendAll(chunkSize, writes);
    delivered, sawEof := ReceiveAll(sent, broken, readSizes);
  }

  /** The file reader of GetStream: it hands out the content in order, in pieces of any size, and
      says end of file only behind the last byte; an error comes without data. */
  ghost predicate ReadsFile(content: Bytes, answers: seq<ReadResult>) {
    && ErrorsAlone(answers) && Flat(Payloads(answers)) <= content
    && forall i :: 0 <= i < |answers| && answers[i].end == EndOfFile ==> Flat(Payloads(answers[..i])) == content
  }

  lemma {:induction false} PayloadsPrefix(answers: seq<ReadResult>, n: nat)
    requires n <= |answers|
    ensures Flat(Payloads(answers[..n])) <= Flat(Payloads(answers))
  {
    if n == |answers| {
      assert answers[..n] == answers;
    } else {
      var m := |answers| - 1;
      PayloadsPrefix(answers[..m], n);
      assert answers[..m][..n] == answers[..n];
      var last := answers[m].data;
      if last != [] {
        FlatAppend(Payloads(answers[..m]), last);
      } else {
        assert Payloads(answers) == Payloads(answers[..m]);
      }
    }
  }

  /** GetStream end to end: the file reader, streamContent with any outcome of its sends, and the
      client's reader with any buffer sizes. What is delivered is an initial piece of the file. End
      of file is reported only with the whole file delivered, unless a Send reported io.EOF, which
      streamContent takes for the end of the content. */
  method Download(content: Bytes, answers: seq<ReadResult>, sends: seq<ReadEnd>, chunkSize: nat, readSizes: seq<nat>)
    returns (delivered: Bytes, sawEof: bool)
    requires ReadsFile(content, answers) && |sends| == |answers|
    requires forall i :: 0 <= i < |answers| ==> |answers[i].data| <= chunkSize
    ensures delivered <= content
    ensures sawEof ==> delivered == content || exists i :: 0 <= i < |sends| && sends[i] == EndOfFile
  {
    var sent, n, end := StreamContent(answers, sends, chunkSize);
    PayloadsPrefix(answers, n);
    // A handler that returns an error, or has not returned, breaks the client's stream.
    delivered, sawEof := ReceiveAll(sent, end != EndOfFile, readSizes);
  }

  lemma {:induction false} FlatPrefix(chunks: seq<Bytes>, i: nat)
    requires i <= |chunks|
    ensures Flat(chunks[..i]) <= Flat(chunks)
  {
    if i == |chunks| {
      assert chunks[..i] == chunks;
    } else {
      var n := |chunks| - 1;
      FlatPrefix(chunks[..n], i);
      assert chunks[..n][..i] == chunks[..i];
    }
  }

  // ---------- publishing ----------

  lemma PartWritten(before: Bytes, data: Bytes, w: nat, rest: Bytes)
    requires w <= |data|
    ensures before + data[..w] <= before + data + rest
  {
    assert before + data + rest == before + data[..w] + (data[w..] + rest);
  }

  /** The files below the external I/O directory. */
  class BlobStore {
    var files: map<string, Bytes>

    /** Nothing but tmp and dest differs from before. */
    ghost predicate OthersKept(before: map<string, Bytes>, dest: string, tmp: Option<string>)
      reads this
    {
      && (forall f :: f in before && f != dest && Some(f) != tmp ==> f in files && files[f] == before[f])
      && (forall f :: f in files && f != dest && Some(f) != tmp ==> f in before)
    }

    /** The destination is as before or holds the whole content. */
    ghost predicate Published(before: map<string, Bytes>, dest: string, content: Bytes)
      reads this
    {
      DestUnchanged(before, files, dest) || (dest in files && files[dest] == content)
    }

    /** io.Copy from the stream reader into file t: read a buffer, write it, until the reader
        says end of file; a write may fail half way, and so may the stream. */
    method CopyAll(r: BlobStreamReader, t: string) returns (copied: bool, died: bool)
      requires r.Valid() && t in files
      modifies this`files, r
      ensures t in files && files == old(files)[t := files[t]]
      // However the copy ends, the file has grown by an initial piece of what was to come.
      ensures files[t] <= old(files[t]) + old(r.Remaining())
      ensures copied ==> files[t] == old(files[t]) + old(r.Remaining()) && !r.broken
    {
      var buf := new Byte[32768];
      copied, died := false, false;
      ghost var all := files[t] + r.Remaining();
      while true
        invariant r.Valid() && t in files && files == old(files)[t := files[t]]
        invariant files[t] + r.Remaining() == all
        decreases |r.Remaining()|, !r.eofReached
      {
        if * { return false, true; }
        ghost var before, left := files[t], r.Remaining();
        var n, err := r.Read(buf);
        assert before + (buf[..n] + r.Remaining()) == before + buf[..n] + r.Remaining();
        assert |left| == n + |r.Remaining()|;
        var bad: bool := *;
        var written: int := *;
        if bad {
          var w := if 0 <= written <= n then written else 0;
          PartWritten(before, buf[..n], w, r.Remaining());
          files := files[t := files[t] + buf[..n][..w]];
          return;
        }
        files := files[t := files[t] + buf[..n]];
        if err == Failed {
          return;
        }
        if err == EndOfFile {
          copied := true;
          return;
        }
      }
    }

    /** fileutil.CopyFile: the destination is truncated and written piece by piece; every call may
        fail and the process may stop between any two effects. */
    method CopyFile(t: string, dest: string) returns (copied: bool, stopped: bool)
      requires t in files && dest != t
      modifies this`files
      ensures MoveLeaves(old(files), files, t, dest, true) && t in files
      ensures copied ==> !stopped && files == old(files)[dest := old(files[t])]
    {
      copied, stopped := false, false;
      if * { return; }   // the source or the destination cannot be opened
      var content, offset := files[t], 0;
      files := files[dest := []];
      assert content[..0] == [];
      while offset < |content|
        invariant 0 <= offset <= |content| && files == old(files)[dest := content[..offset]]
      {
        var fails: bool := *;
        var n: int := *;
        var step := if 0 < n <= |content| - offset then n else |content| - offset;
        if * {
          stopped := true;
          return;
        }
        if fails { return; }
        assert content[..offset] + content[offset..offset + step] == content[..offset + step];
        files := files[dest := files[dest] + content[offset..offset + step]];
        offset := offset + step;
      }
      assert content[..|content|] == content;
      if * { return; }   // the sync failed
      copied := true;
    }

    /** fileutil.Move: a rename, or across file systems a copy and a removal. */
    method Move(t: string, dest: string, crossDevice: bool) returns (moved: bool, stopped: bool)
      requires t in files && dest != t
      modifies this`files
      ensures MoveLeaves(old(files), files, t, dest, crossDevice)
      ensures moved ==> !stopped && files == (old(files) - {t})[dest := old(files[t])]
      ensures !moved && !stopped && !crossDevice ==> files == old(files)
    {
      moved, stopped := false, false;
      if * { return; }
      ghost var before := files;
      if crossDevice {
        var copied;
        copied, stopped := CopyFile(t, dest);
        if !copied { return; }
        assert before[t][..|before[t]|] == before[t];
        if * { return; }   // the copy is complete and the temporary file stays
        files := files - {t};
        assert files == (before - {t})[dest := before[t]];
      } else {
        files := (files - {t})[dest := files[t]];
      }
      if * {
        stopped := true;
        return;
      }
      moved := true;
    }

    /** PutStream of service.go with the localWriter of local_storage.go.  Any file system call
        may fail, the request may be cancelled at any point, the stream may end in an error,
        and the process may stop between any two effects. */
    method PutStream(filename: Option<string>, chunks: seq<Bytes>, broken: bool, crossDevice: bool)
      returns (ok: bool, stopped: bool, ghost tmp: Option<string>)
      modifies this`files
      ensures filename.None? || filename.value == "" ==> !ok && files == old(files)
      ensures filename.Some? ==> OthersKept(old(files), filename.value, tmp)
      ensures filename.Some? && !crossDevice ==> Published(old(files), filename.value, Flat(chunks))
      ensures filename.Some? ==>
        || DestUnchanged(old(files), files, filename.value)
        || (!broken && filename.value in files && files[filename.value] <= Flat(chunks))
      ensures tmp.Some? ==> tmp.value !in old(files) && filename != tmp
      ensures tmp.None? ==> files == old(files)
      // Success means the complete content is in place and no temporary file is left.
      ensures ok ==> filename.Some? && !broken && filename.value in files
                     && files[filename.value] == Flat(chunks) && (tmp.Some? ==> tmp.value !in files)
      // A request that fails or is cancelled leaves the destination alone.
      ensures filename.Some? && !ok && !stopped && !crossDevice ==> DestUnchanged(old(files), files, filename.value)
      ensures !(ok && stopped)
    {
      ok, stopped, tmp := false, false, None;
      if filename.None? || filename.value == "" {
        return;
      }
      var dest := filename.value;
      var cancelled: bool := *;
      var candidate: string := *;
      var fails: bool := *;
      if cancelled || fails || candidate in files || candidate == dest {
        return;   // disabled storage, cancelled context, directory or temporary file not created
      }
      var t := candidate;
      tmp := Some(t);
      files := files[t := []];

      var reader := new BlobStreamReader(chunks, broken);
      var copied, died := CopyAll(reader, t);
      if died {
        stopped := true;
        return;
      }
      cancelled := *;
      if !copied {
        cancelled := true;   // cancel() before Close
      }

      // localWriter.Close
      if * {
        stopped := true;
        return;
      }
      if cancelled {
        fails := *;
        if !fails {
          files := files - {t};
        }
        return;
      }
      fails := *;
      if fails { return; }   // sync or close failed; the temporary file stays
      if * {
        stopped := true;
        return;
      }
      ok, stopped := Move(t, dest, crossDevice);
    }
  }

  /** The states in which a move of t to dest can be left. */
  ghost predicate MoveLeaves(
      before: map<string, Bytes>, after: map<string, Bytes>, t: string, dest: string, crossDevice: bool)
    requires t in before
  {
    || after == before
    || after == (before - {t})[dest := before[t]]
    || (crossDevice && exists w :: 0 <= w <= |before[t]| && after == before[dest := before[t][..w]])
  }

  /** However the move is left, the destination is as before or complete if and only if the rename
      stays on one file system or the copy has no state in between. */
  lemma MoveExact(before: map<string, Bytes>, t: string, dest: string, crossDevice: bool)
    requires t in before && dest != t
    ensures (forall after :: MoveLeaves(before, after, t, dest, crossDevice) ==>
               DestUnchanged(before, after, dest) || (dest in after && after[dest] == before[t]))
      <==> !crossDevice || before[t] == [] || (|before[t]| == 1 && dest in before && before[dest] == [])
  {
    var content := before[t];
    assert content[..|content|] == content;
    if crossDevice && |content| >= 1 {
      var empty := before[dest := content[..0]];
      assert MoveLeaves(before, empty, t, dest, crossDevice) && empty[dest] == [];
      if |content| >= 2 {
        var one := before[dest := content[..1]];
        assert MoveLeaves(before, one, t, dest, crossDevice) && |one[dest]| == 1;
      }
    }
  }

  ghost predicate DestUnchanged(before: map<string, Bytes>, after: map<string, Bytes>, dest: string) {
    if dest in before then dest in after && after[dest] == before[dest] else dest !in after
  }
}
