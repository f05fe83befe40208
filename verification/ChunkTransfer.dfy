/**
 Moving a file between reporter and data service: the client's upload loop, the server's
 reassembly, the server's download chunks and the client's reassembly.
 */
module ChunkTransfer {
  import opened Wrappers

  const CHUNK_SIZE := 1024

  type Bytes = seq<bv8>

  // The hex SHA-256 of some content.
  type Hash = Bytes -> string

  datatype Info = Info(id: string, name: string, checksum: string)

  datatype Message = InfoMsg(info: Info) | ChunkMsg(data: Bytes)

  // One read of the source: the bytes it put into the buffer and the error next to them.
  datatype End = More | Eof | Failed

  datatype Read = Read(data: Bytes, end: End)

  function Concat(chunks: seq<Bytes>): Bytes {
    if chunks == [] then [] else Concat(chunks[..|chunks| - 1]) + chunks[|chunks| - 1]
  }

  /* ---- what a reader holds and what the upload makes of it ---- */

  // A reader that was read to its end keeps reporting the end.
  function Fate(script: seq<Read>): End {
    if script == [] then Eof else if script[0].end.More? then Fate(script[1..]) else script[0].end
  }

  // The bytes that came together with the error.
  function LastBytes(script: seq<Read>): Bytes {
    if script == [] then [] else if script[0].end.More? then LastBytes(script[1..]) else script[0].data
  }

  function Contents(script: seq<Read>): Bytes {
    if script == [] then [] else if script[0].end.More? then script[0].data + Contents(script[1..]) else script[0].data
  }

  function ChunkMessages(script: seq<Read>): seq<Message> {
    if script == [] || !script[0].end.More? then [] else [ChunkMsg(script[0].data)] + ChunkMessages(script[1..])
  }

  function UploadStream(info: Info, script: seq<Read>): seq<Message> {
    [InfoMsg(info)] + ChunkMessages(script)
  }

  // The info sent carries the id of the file stored under the same key, if one was found.
  function Identified(info: Info, found: Option<string>): Info {
    if found.Some? && found.value != "" then info.(id := found.value) else info
  }

  datatype UploadError = NoInfo | OpenFailed | SendFailed | ReadFailed | ReplyFailed

  // `found` is the id the look-up by key returned, `fails` says which message cannot be sent,
  // and `reply` is the id in the server's closing reply.
  method Upload(
    info: Option<Info>, found: Option<string>, opens: bool, script: seq<Read>, fails: nat -> bool,
    reply: Option<string>)
      returns (sent: seq<Message>, id: string, err: Option<UploadError>)
    ensures info.None? ==> err == Some(NoInfo)
    ensures info.Some? ==> (err == Some(OpenFailed) <==> !opens)
    ensures err == Some(NoInfo) || err == Some(OpenFailed) ==> sent == []
    ensures info.Some? ==> sent <= UploadStream(Identified(info.value, found), script)
    ensures sent != [] ==> info.Some? && sent[0].InfoMsg?
    ensures sent != [] ==> sent[0].info.name == info.value.name && sent[0].info.checksum == info.value.checksum
    ensures sent != [] ==> sent[0].info.id == if found.Some? && found.value != "" then found.value else info.value.id
    ensures forall i | 0 <= i < |sent| :: !fails(i)
    ensures err == Some(SendFailed) ==> fails(|sent|)
    ensures err == None || err == Some(ReadFailed) || err == Some(ReplyFailed) ==>
      info.Some? && opens && sent == UploadStream(Identified(info.value, found), script)
    ensures err == Some(ReadFailed) ==> Fate(script) == Failed
    ensures err == Some(ReplyFailed) ==> Fate(script) == Eof && reply == None
    ensures err == None ==> Fate(script) == Eof && reply == Some(id)
    ensures err != None ==> id == ""
  {
    sent, id := [], "";
    if info.None? {
      return sent, id, Some(NoInfo);
    }
    var known := info.value;
    if found.Some? && found.value != "" {
      known := known.(id := found.value);
    }
    if !opens {
      return sent, id, Some(OpenFailed);
    }
    if fails(0) {
      return sent, id, Some(SendFailed);
    }
    sent := [InfoMsg(known)];
    var i := 0;
    while i < |script|
      invariant 0 <= i <= |script|
      invariant UploadStream(known, script) == sent + ChunkMessages(script[i..])
      invariant Fate(script) == Fate(script[i..])
      invariant forall j | 0 <= j < |sent| :: !fails(j)
    {
      if script[i].end == Failed {
        return sent, id, Some(ReadFailed);
      }
      if script[i].end == Eof {
        break;
      }
      if fails(|sent|) {
        return sent, id, Some(SendFailed);
      }
      sent := sent + [ChunkMsg(script[i].data)];
      i := i + 1;
    }
    assert sent == UploadStream(known, script) && Fate(script) == Eof;
    if reply == None {
      return sent, id, Some(ReplyFailed);
    }
    return sent, reply.value, None;
  }

  /* ---- the server's reassembly ---- */

  function Payload(messages: seq<Message>): Bytes {
    if messages == [] then []
    else
      var last, before := messages[|messages| - 1], Payload(messages[..|messages| - 1]);
      if last.ChunkMsg? then before + last.data else before
  }

  function LastInfo(messages: seq<Message>): Option<Info> {
    if messages == [] then None
    else
      var last := messages[|messages| - 1];
      if last.InfoMsg? then Some(last.info) else LastInfo(messages[..|messages| - 1])
  }

  datatype ServerError = StreamBroken | InfoMissing | ContentMissing | SaveFailed | ChecksumIncorrect

  datatype StoredFile = StoredFile(name: string, content: Bytes, checksum: string)

  datatype Reply = Reply(id: string, size: nat)

  datatype Outcome = Outcome(saved: Option<StoredFile>, reply: Result<Reply, ServerError>)

  // `saved` is the id the file is saved under, None if it cannot be saved.  A file whose checksum
  // is wrong is refused only after it was saved.
  function Receive(messages: seq<Message>, broken: bool, saved: Option<string>, hash: Hash): Outcome {
    var content, info := Payload(messages), LastInfo(messages);
    if broken then Outcome(None, Err(StreamBroken))
    else if info == None then Outcome(None, Err(InfoMissing))
    else if content == [] then Outcome(None, Err(ContentMissing))
    else if saved == None then Outcome(None, Err(SaveFailed))
    else
      Outcome(Some(StoredFile(info.value.name, content, hash(content))),
              if hash(content) != info.value.checksum then Err(ChecksumIncorrect)
              else Ok(Reply(saved.value, |content| % 0x1_0000_0000)))
  }

  method UploadFile(messages: seq<Message>, broken: bool, saved: Option<string>, hash: Hash) returns (r: Outcome)
    ensures r == Receive(messages, broken, saved, hash)
    ensures broken ==> r == Outcome(None, Err(StreamBroken))
    ensures !broken && !HasInfo(messages) ==> r == Outcome(None, Err(InfoMissing))
    ensures !broken && HasInfo(messages) && !HasContent(messages) ==> r == Outcome(None, Err(ContentMissing))
    ensures !broken && HasInfo(messages) && HasContent(messages) && saved == None ==>
      r == Outcome(None, Err(SaveFailed))
    ensures !broken && HasInfo(messages) && HasContent(messages) && saved.Some? ==>
      r.saved.Some? && r.saved.value.content == Payload(messages)
    ensures r.saved.Some? ==> saved.Some? && exists i :: SavedFrom(messages, i, saved.value, hash, r)
  {
    LastInfoIs(messages);
    PayloadIsEmptyIff(messages);
    var bs: Option<Bytes>, finfo: Option<Info> := None, None;
    for i := 0 to |messages|
      invariant (if bs.Some? then bs.value else []) == Payload(messages[..i])
      invariant finfo == LastInfo(messages[..i])
    {
      assert messages[..i + 1][..i] == messages[..i];
      match messages[i]
      case ChunkMsg(b) => bs := Some(if bs == None then b else bs.value + b);
      case InfoMsg(info) => finfo := Some(info);
    }
    assert messages[..|messages|] == messages;
    ReceivedIsSaved(messages, broken, saved, hash);
    if broken {
      return Outcome(None, Err(StreamBroken));
    }
    if finfo == None {
      return Outcome(None, Err(InfoMissing));
    }
    if bs == None || |bs.value| == 0 {
      return Outcome(None, Err(ContentMissing));
    }
    if saved == None {
      return Outcome(None, Err(SaveFailed));
    }
    var file := StoredFile(finfo.value.name, bs.value, hash(bs.value));
    if file.checksum != finfo.value.checksum {
      return Outcome(Some(file), Err(ChecksumIncorrect));
    }
    return Outcome(Some(file), Ok(Reply(saved.value, |bs.value| % 0x1_0000_0000)));
  }

  ghost predicate HasInfo(messages: seq<Message>) {
    exists m :: m in messages && m.InfoMsg?
  }

  ghost predicate HasContent(messages: seq<Message>) {
    exists m :: m in messages && m.ChunkMsg? && m.data != []
  }

  ghost predicate IsLastInfo(messages: seq<Message>, i: int) {
    0 <= i < |messages| && messages[i].InfoMsg? && forall j | i < j < |messages| :: messages[j].ChunkMsg?
  }

  // The file is saved under the name of the last info, with its own checksum; the reply refuses it
  // if that is not the checksum of the info, and else tells id and size, the latter in 32 bits.
  ghost predicate SavedFrom(messages: seq<Message>, i: int, id: string, hash: Hash, r: Outcome) {
    && IsLastInfo(messages, i) && r.saved.Some?
    && r.saved.value.name == messages[i].info.name
    && r.saved.value.checksum == hash(r.saved.value.content)
    && (r.saved.value.checksum != messages[i].info.checksum ==> r.reply == Err(ChecksumIncorrect))
    && (r.saved.value.checksum == messages[i].info.checksum ==>
          r.reply == Ok(Reply(id, |r.saved.value.content| % 0x1_0000_0000)))
  }

  lemma {:induction false} LastInfoIs(messages: seq<Message>)
    ensures LastInfo(messages).Some? <==> HasInfo(messages)
    ensures LastInfo(messages).Some? ==>
      exists i :: IsLastInfo(messages, i) && messages[i].info == LastInfo(messages).value
  {
    if messages != [] {
      var n := |messages| - 1;
      var init, last := messages[..n], messages[n];
      LastInfoIs(init);
      assert last in messages && forall m :: m in messages <==> m in init || m == last;
      if last.InfoMsg? {
        assert IsLastInfo(messages, n);
      } else if LastInfo(init).Some? {
        var i :| IsLastInfo(init, i) && init[i].info == LastInfo(init).value;
        assert messages[i] == init[i] && IsLastInfo(messages, i);
      }
    }
  }

  lemma ReceivedIsSaved(messages: seq<Message>, broken: bool, saved: Option<string>, hash: Hash)
    ensures var r := Receive(messages, broken, saved, hash);
      r.saved.Some? ==> saved.Some? && exists i :: SavedFrom(messages, i, saved.value, hash, r)
  {
    var r := Receive(messages, broken, saved, hash);
    LastInfoIs(messages);
    if r.saved.Some? {
      var i :| IsLastInfo(messages, i) && messages[i].info == LastInfo(messages).value;
      assert SavedFrom(messages, i, saved.value, hash, r);
    }
  }

  lemma {:induction false} PayloadIsEmptyIff(messages: seq<Message>)
    ensures Payload(messages) != [] <==> HasContent(messages)
  {
    if messages != [] {
      PayloadIsEmptyIff(messages[..|messages| - 1]);
      assert messages == messages[..|messages| - 1] + [messages[|messages| - 1]];
    }
  }

  // What a reader holds, on its reads: their bytes up to and with the first one that ends it.
  lemma {:induction false} ContentsAre(script: seq<Read>, n: nat)
    requires n <= |script| && (forall i | 0 <= i < n :: script[i].end.More?)
    requires n < |script| ==> !script[n].end.More?
    ensures Contents(script) == Concat(seq(n, i requires 0 <= i < n => script[i].data)) + LastBytes(script)
    ensures LastBytes(script) == if n < |script| then script[n].data else []
    ensures Fate(script) == if n < |script| then script[n].end else Eof
  {
    if n > 0 {
      var rest := seq(n - 1, i requires 0 <= i < n - 1 => script[1..][i].data);
      ContentsAre(script[1..], n - 1);
      ConcatCons(script[0].data, rest);
      assert [script[0].data] + rest == seq(n, i requires 0 <= i < n => script[i].data);
    }
  }

  lemma {:induction false} PayloadSplits(a: seq<Message>, b: seq<Message>)
    ensures Payload(a + b) == Payload(a) + Payload(b)
  {
    if b == [] {
      assert a + b == a;
    } else {
      var init := b[..|b| - 1];
      PayloadSplits(a, init);
      assert (a + b)[..|a + b| - 1] == a + init;
    }
  }

  lemma {:induction false} InfoOfUpload(info: Info, script: seq<Read>, n: nat)
    requires n <= |ChunkMessages(script)|
    ensures LastInfo([InfoMsg(info)] + ChunkMessages(script)[..n]) == Some(info)
  {
    var messages := [InfoMsg(info)] + ChunkMessages(script)[..n];
    if n > 0 {
      OnlyChunks(script, n - 1);
      InfoOfUpload(info, script, n - 1);
      assert messages[..n] == [InfoMsg(info)] + ChunkMessages(script)[..n - 1];
    }
  }

  lemma {:induction false} OnlyChunks(script: seq<Read>, i: nat)
    requires i < |ChunkMessages(script)|
    ensures ChunkMessages(script)[i].ChunkMsg?
  {
    if i > 0 {
      OnlyChunks(script[1..], i - 1);
    }
  }

  lemma {:induction false} PayloadAndLastBytes(script: seq<Read>)
    ensures Contents(script) == Payload(ChunkMessages(script)) + LastBytes(script)
  {
    if script != [] && script[0].end.More? {
      PayloadAndLastBytes(script[1..]);
      PayloadSplits([ChunkMsg(script[0].data)], ChunkMessages(script[1..]));
    }
  }

  // The server reassembles what the reader held, less the bytes read together with the end.
  lemma UploadedContent(info: Info, script: seq<Read>)
    ensures LastInfo(UploadStream(info, script)) == Some(info)
    ensures Payload(UploadStream(info, script)) + LastBytes(script) == Contents(script)
  {
    InfoOfUpload(info, script, |ChunkMessages(script)|);
    assert ChunkMessages(script)[..|ChunkMessages(script)|] == ChunkMessages(script);
    PayloadAndLastBytes(script);
    PayloadSplits([InfoMsg(info)], ChunkMessages(script));
  }

  /* ---- the download ---- */

  function Chunks(buf: Bytes): seq<Bytes> {
    if buf == [] then []
    else if |buf| >= CHUNK_SIZE then [buf[..CHUNK_SIZE]] + Chunks(buf[CHUNK_SIZE..])
    else [buf]
  }

  // `fails` says which chunk cannot be sent.
  method DownloadFile(content: Bytes, fails: nat -> bool) returns (sent: seq<Bytes>, ok: bool)
    ensures sent <= Chunks(content)
    ensures forall i | 0 <= i < |sent| :: !fails(i)
    ensures if ok then sent == Chunks(content) else |sent| < |Chunks(content)| && fails(|sent|)
  {
    sent := [];
    var buf := content;
    while |buf| != 0
      invariant Chunks(content) == sent + Chunks(buf)
      invariant forall i | 0 <= i < |sent| :: !fails(i)
      decreases |buf|
    {
      var chunk;
      if |buf| >= CHUNK_SIZE {
        chunk, buf := buf[..CHUNK_SIZE], buf[CHUNK_SIZE..];
      } else {
        chunk, buf := buf, [];
      }
      if fails(|sent|) {
        return sent, false;
      }
      sent := sent + [chunk];
    }
    return sent, true;
  }

  // Chunks are never empty, at most 1024 bytes, full up to the last one, and as few as possible.
  lemma {:induction false} ChunksShape(buf: Bytes)
    ensures forall i | 0 <= i < |Chunks(buf)| :: 0 < |Chunks(buf)[i]| <= 1024
    ensures forall i | 0 <= i < |Chunks(buf)| - 1 :: |Chunks(buf)[i]| == 1024
    ensures |Chunks(buf)| == (|buf| + 1023) / 1024
  {
    if |buf| >= CHUNK_SIZE {
      ChunksShape(buf[CHUNK_SIZE..]);
    }
  }

  lemma {:induction false} ConcatCons(chunk: Bytes, chunks: seq<Bytes>)
    ensures Concat([chunk] + chunks) == chunk + Concat(chunks)
  {
    if chunks != [] {
      var init := chunks[..|chunks| - 1];
      ConcatCons(chunk, init);
      assert ([chunk] + chunks)[..|chunks|] == [chunk] + init;
    }
  }

  lemma {:induction false} ChunksReassemble(buf: Bytes)
    ensures Concat(Chunks(buf)) == buf
  {
    if |buf| >= CHUNK_SIZE {
      ChunksReassemble(buf[CHUNK_SIZE..]);
      ConcatCons(buf[..CHUNK_SIZE], Chunks(buf[CHUNK_SIZE..]));
    } else if buf != [] {
      assert Concat([buf]) == Concat([]) + buf;
    }
  }

  datatype DownloadError =
    NoFileInfo | CallFailed | CreateFailed | WriteFailed | StreamError | ChecksumMismatch | CloseFailed

  // The first thing that went wrong once the file is open, and a failing close in any case.
  function Faults(complete: bool, broken: bool, matches: bool, closes: bool): seq<DownloadError> {
    (if !complete then [WriteFailed] else if broken then [StreamError] else if !matches then [ChecksumMismatch] else [])
    + if closes then [] else [CloseFailed]
  }

  // `fails` says which chunk cannot be written; `written` is how many were.
  method Download(
    info: Option<Info>, opens: bool, creates: bool, chunks: seq<Bytes>, broken: bool, fails: nat -> bool, closes: bool,
    hash: Hash)
      returns (file: Bytes, ghost written: nat, errs: seq<DownloadError>)
    ensures errs == [] <==>
      && info.Some? && opens && creates && (forall i | 0 <= i < |chunks| :: !fails(i)) && !broken && closes
      && hash(Concat(chunks)) == info.value.checksum
    ensures written <= |chunks| && file == Concat(chunks[..written]) && forall i | 0 <= i < written :: !fails(i)
    ensures info.None? ==> errs == [NoFileInfo] && written == 0
    ensures info.Some? && !opens ==> errs == [CallFailed] && written == 0
    ensures info.Some? && opens && !creates ==> errs == [CreateFailed] && written == 0
    ensures info.Some? && opens && creates ==>
      errs == Faults(written == |chunks|, broken, hash(file) == info.value.checksum, closes)
    ensures info.Some? && opens && creates && written < |chunks| ==> fails(written) && errs[0] == WriteFailed
    ensures info.Some? && opens && creates && written == |chunks| && broken ==> errs != [] && errs[0] == StreamError
    ensures info.Some? && opens && creates && !closes ==> errs != [] && errs[|errs| - 1] == CloseFailed
  {
    file, written, errs := [], 0, [];
    if info.None? {
      return file, written, [NoFileInfo];
    }
    if !opens {
      return file, written, [CallFailed];
    }
    if !creates {
      return file, written, [CreateFailed];
    }
    var i := 0;
    while i < |chunks| && errs == []
      invariant i <= |chunks| && written == i && file == Concat(chunks[..i])
      invariant forall j | 0 <= j < i :: !fails(j)
      invariant errs == [] || (errs == [WriteFailed] && i < |chunks| && fails(i))
      decreases |chunks| - i, if errs == [] then 1 else 0
    {
      if fails(i) {
        errs := [WriteFailed];
      } else {
        assert chunks[..i + 1][..i] == chunks[..i];
        file := file + chunks[i];
        i := i + 1;
        written := i;
      }
    }
    if errs == [] {
      assert chunks[..i] == chunks;
      if broken {
        errs := [StreamError];
      } else if info.value.checksum != hash(file) {
        errs := [ChecksumMismatch];
      }
    }
    if !closes {
      errs := errs + [CloseFailed];
    }
  }

  /* ---- the round trip ---- */

  // What comes down after an upload is what the reader held exactly when the reader reported its
  // end with no bytes beside it; otherwise it is a proper prefix, or nothing was stored at all.
  lemma RoundTrip(info: Info, script: seq<Read>, id: string, hash: Hash)
    requires Contents(script) != []
    ensures var outcome := Receive(UploadStream(info, script), false, Some(id), hash);
      LastBytes(script) == [] <==>
        outcome.saved.Some? && Concat(Chunks(outcome.saved.value.content)) == Contents(script)
    ensures var outcome := Receive(UploadStream(info, script), false, Some(id), hash);
      outcome.saved.Some? ==> Concat(Chunks(outcome.saved.value.content)) <= Contents(script)
  {
    UploadedContent(info, script);
    var content := Payload(UploadStream(info, script));
    ChunksReassemble(content);
  }

  // With the checksum the client computes over the whole content, a complete upload is accepted,
  // and an incomplete one is accepted only on a hash collision.
  lemma AcceptedUploads(info: Info, script: seq<Read>, id: string, hash: Hash)
    requires Contents(script) != [] && info.checksum == hash(Contents(script))
    ensures var outcome := Receive(UploadStream(info, script), false, Some(id), hash);
      outcome.reply.Ok? <==>
        LastBytes(script) == [] || (outcome.saved.Some? && hash(outcome.saved.value.content) == hash(Contents(script)))
    ensures LastBytes(script) == [] ==>
      Receive(UploadStream(info, script), false, Some(id), hash)
      == Outcome(Some(StoredFile(info.name, Contents(script), info.checksum)),
                 Ok(Reply(id, |Contents(script)| % 0x1_0000_0000)))
  {
    UploadedContent(info, script);
    assert LastBytes(script) == [] ==> Payload(UploadStream(info, script)) == Contents(script);
  }
}
