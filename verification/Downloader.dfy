/** The resumable download of one file: what a server may answer, and what is then on disk. */
module Downloader {
  import opened Wrappers

  type Bytes = seq<bv8>

  /** The answer to the GET request. `body` is what arrived; `cut` means the connection broke. */
  datatype Reply = NoConnection | Reply(status: int, body: Bytes, cut: bool)

  datatype Failure = RequestFailed | Unauthorized | BadStatus | OpenFailed | Interrupted | Incomplete | SizeMismatch

  /** The byte the request resumes from; 0 sends no Range header. */
  function StartByte(local: Option<Bytes>, totalSize: int): nat {
    if local.Some? && |local.value| < totalSize then |local.value| else 0
  }

  /** The file after an answer was accepted: appended to when resuming, replaced otherwise. */
  function Stored(local: Option<Bytes>, totalSize: int, body: Bytes): Bytes {
    if StartByte(local, totalSize) > 0 then local.value + body else body
  }

  /** What one call does: the file it leaves, and the error it reports, if any. */
  function Attempt(local: Option<Bytes>, totalSize: int, reply: Reply, canOpen: bool): (Option<Bytes>, Option<Failure>)
  {
    if local.Some? && |local.value| == totalSize then (local, None)
    else if reply.NoConnection? then (local, Some(RequestFailed))
    else if reply.status != 200 && reply.status != 206 then
      (local, Some(if reply.status == 401 then Unauthorized else BadStatus))
    else if !canOpen then (local, Some(OpenFailed))
    else
      var stored := Stored(local, totalSize, reply.body);
      (Some(stored),
       if reply.cut then Some(Interrupted)
       else if StartByte(local, totalSize) + |reply.body| != totalSize then Some(Incomplete)
       else if |stored| != totalSize then Some(SizeMismatch)
       else None)
  }

  class LocalFile {
    var data: Option<Bytes>

    constructor (data: Option<Bytes>)
      ensures this.data == data
    {
      this.data := data;
    }

    method DownloadFile(totalSize: int, reply: Reply, canOpen: bool) returns (failure: Option<Failure>)
      modifies this
      ensures (data, failure) == Attempt(old(data), totalSize, reply, canOpen)
    {
      var startByte := 0;
      if data.Some? {
        if |data.value| == totalSize {
          return None;
        }
        if |data.value| < totalSize {
          startByte := |data.value|;
        }
      }
      if reply.NoConnection? {
        return Some(RequestFailed);
      }
      if reply.status != 200 && reply.status != 206 {
        return Some(if reply.status == 401 then Unauthorized else BadStatus);
      }
      if !canOpen {
        return Some(OpenFailed);
      }
      if startByte > 0 {
        data := Some(data.value + reply.body);
      } else {
        data := Some(reply.body);
      }
      if reply.cut {
        return Some(Interrupted);
      }
      if startByte + |reply.body| != totalSize {
        return Some(Incomplete);
      }
      if |data.value| != totalSize {
        return Some(SizeMismatch);
      }
      return None;
    }

    /** Download, then validate a safetensors file and remove it when it is not valid. */
    method Fetch(totalSize: int, reply: Reply, canOpen: bool, safetensors: bool) returns (ok: bool)
      modifies this
      ensures var (file, failure) := Attempt(old(data), totalSize, reply, canOpen);
              var corrupt := failure == None && safetensors && !(file.Some? && ValidSafetensors(file.value));
              && data == (if corrupt then None else file)
              && ok == (failure == None && !corrupt)
    {
      var failure := DownloadFile(totalSize, reply, canOpen);
      if failure.Some? {
        return false;
      }
      if safetensors {
        if data.None? || !ValidSafetensors(data.value) {
          data := None;
          return false;
        }
      }
      return true;
    }
  }

  // ---- Safetensors files ------------------------------------------------------------

  const MAX_HEADER := 104_857_600

  function LittleEndian(b: Bytes): nat {
    if b == [] then 0 else b[0] as nat + 256 * LittleEndian(b[1..])
  }

  /** Eight bytes of header size, then at least that many bytes of header. */
  predicate ValidSafetensors(file: Bytes) {
    if |file| < 8 then false
    else
      var headerSize := LittleEndian(file[..8]);
      0 < headerSize <= MAX_HEADER && |file| >= 8 + headerSize
  }

  /** A file is valid or not from its first 8 + header bytes on: a longer prefix of a valid file
      stays valid, and cutting a valid file inside its header makes it invalid. */
  lemma ValidityIsDecidedByTheHeader(file: Bytes, n: nat)
    requires n <= |file| && ValidSafetensors(file)
    ensures ValidSafetensors(file[..n]) <==> n >= 8 + LittleEndian(file[..8])
  {
    if n >= 8 {
      assert file[..n][..8] == file[..8];
    }
  }

  /** Validity on the bytes: the first eight are the size of the header, least significant byte first;
      the header is there in full, is not empty and has at most 100 MiB. */
  lemma ValidIff(file: Bytes)
    ensures ValidSafetensors(file) <==>
              && |file| >= 8
              && var size := file[0] as nat + 0x100 * (file[1] as nat) + 0x1_0000 * (file[2] as nat)
                             + 0x100_0000 * (file[3] as nat) + 0x1_0000_0000 * (file[4] as nat)
                             + 0x100_0000_0000 * (file[5] as nat) + 0x1_0000_0000_0000 * (file[6] as nat)
                             + 0x100_0000_0000_0000 * (file[7] as nat);
                 1 <= size <= 100 * 1024 * 1024 && |file| - 8 >= size
  {
    if |file| >= 8 {
      EightBytes(file[..8]);
    }
  }

  lemma EightBytes(b: Bytes)
    requires |b| == 8
    ensures LittleEndian(b) ==
            b[0] as nat + 256 * (b[1] as nat + 256 * (b[2] as nat + 256 * (b[3] as nat + 256 * (b[4] as nat
            + 256 * (b[5] as nat + 256 * (b[6] as nat + 256 * (b[7] as nat)))))))
  {
    hide LittleEndian;
    LowByte(b, 0);
    LowByte(b, 1);
    LowByte(b, 2);
    LowByte(b, 3);
    LowByte(b, 4);
    LowByte(b, 5);
    LowByte(b, 6);
    LowByte(b, 7);
    assert b[0..] == b;
    NoBytes(b[8..]);
  }

  lemma LowByte(b: Bytes, k: nat)
    requires k < |b|
    ensures LittleEndian(b[k..]) == b[k] as nat + 256 * LittleEndian(b[k + 1..])
  {
    assert b[k..][1..] == b[k + 1..];
  }

  lemma NoBytes(b: Bytes)
    requires b == []
    ensures LittleEndian(b) == 0
  {
  }

  // ---- What each answer does -------------------------------------------------------

  /** A file of the full size is not asked for again. An answer that is no answer, one with another status
      than 200 and 206, and a file that cannot be opened leave the partial file as it is, and each is
      reported as what it is. */
  lemma RefusalKeepsTheFile(local: Option<Bytes>, size: nat, reply: Reply, canOpen: bool)
    requires local.None? || |local.value| != size
    requires reply.NoConnection? || reply.status !in {200, 206} || !canOpen
    ensures Attempt(local, size, reply, canOpen) ==
            (local, Some(if reply.NoConnection? then RequestFailed
                         else if reply.status == 401 then Unauthorized
                         else if reply.status !in {200, 206} then BadStatus
                         else OpenFailed))
  {
  }

  /** Any other answer is appended to a partial file, and replaces one that is empty, absent or too long. */
  lemma AnswerIsStored(local: Option<Bytes>, size: nat, reply: Reply)
    requires local.None? || |local.value| != size
    requires reply.Reply? && reply.status in {200, 206}
    ensures Attempt(local, size, reply, true).0 ==
            Some(if local.Some? && |local.value| < size then local.value + reply.body else reply.body)
  {
    assert [] + reply.body == reply.body;
  }

  /** The attempt reports success if and only if the answer was not cut and completes the file; otherwise
      it reports the break, or the wrong length. */
  lemma SuccessIff(local: Option<Bytes>, size: nat, reply: Reply)
    requires local.None? || |local.value| != size
    requires reply.Reply? && reply.status in {200, 206}
    ensures var kept := if local.Some? && |local.value| < size then |local.value| else 0;
            Attempt(local, size, reply, true).1 ==
              if reply.cut then Some(Interrupted)
              else if kept + |reply.body| == size then None
              else Some(Incomplete)
  {
  }

  /** So from a prefix of the remote file, the rest of it completes the file and success is reported, as it
      is for the whole file when nothing was there. */
  lemma TheRestCompletes(remote: Bytes, n: nat)
    requires n < |remote|
    ensures Attempt(Some(remote[..n]), |remote|, Reply(206, remote[n..], false), true) == (Some(remote), None)
    ensures Attempt(None, |remote|, Reply(200, remote, false), true) == (Some(remote), None)
  {
    assert remote[..n] + remote[n..] == remote;
  }

  // ---- A server with a fixed file ---------------------------------------------------

  /** An honest answer for `remote`: 206 continues at the requested byte, 200 starts over. An
      answer that was not cut is complete. */
  ghost predicate Honest(remote: Bytes, start: nat, reply: Reply) {
    reply.Reply? && (reply.status == 200 || reply.status == 206) ==>
      var whole := if reply.status == 206 && start <= |remote| then remote[start..] else remote;
      && (reply.status == 206 ==> 0 < start)
      && reply.body <= whole
      && (!reply.cut ==> reply.body == whole)
  }

  /** The one thing an answer must not do: ignore the Range header and then break off. */
  predicate OnlyPartialAnswersBreak(start: nat, reply: Reply) {
    reply.Reply? && reply.cut && start > 0 ==> reply.status != 200
  }

  /** A prefix of the remote file, or longer than it. */
  ghost predicate Sound(remote: Bytes, local: Option<Bytes>) {
    local.None? || local.value <= remote || |local.value| > |remote|
  }

  /** From a prefix, one answer keeps the file sound unless a 200 answer to a resumed request
      broke off; and then it stays sound exactly when what arrived is too long or happens to
      repeat the remote bytes at that place. */
  lemma WhenOneAnswerIsSafe(remote: Bytes, local: Option<Bytes>, reply: Reply, canOpen: bool)
    requires Sound(remote, local) && Honest(remote, StartByte(local, |remote|), reply)
    ensures var start := StartByte(local, |remote|);
            var after := Attempt(local, |remote|, reply, canOpen).0;
            Sound(remote, after) <==>
              (OnlyPartialAnswersBreak(start, reply) || !canOpen
               || start + |reply.body| > |remote|
               || reply.body == remote[start..start + |reply.body|])
  {
    var start := StartByte(local, |remote|);
    if start > 0 && canOpen && reply.Reply? && (reply.status == 200 || reply.status == 206) {
      ResumedAnswer(remote, local, reply);
    }
  }

  lemma ResumedAnswer(remote: Bytes, local: Option<Bytes>, reply: Reply)
    requires Sound(remote, local) && Honest(remote, StartByte(local, |remote|), reply)
    requires StartByte(local, |remote|) > 0 && reply.Reply? && (reply.status == 200 || reply.status == 206)
    ensures var start := |local.value|;
            local.value + reply.body <= remote <==>
              start + |reply.body| <= |remote| && reply.body == remote[start..start + |reply.body|]
  {
    var start := |local.value|;
    var stored := local.value + reply.body;
    assert local.value == remote[..start];
    if start + |reply.body| <= |remote| && reply.body == remote[start..start + |reply.body|] {
      assert stored == remote[..start + |reply.body|];
    }
    if stored <= remote {
      assert stored[start..] == reply.body;
    }
  }

  /** Success means the whole remote file, byte for byte. */
  lemma SuccessMeansEqual(remote: Bytes, local: Option<Bytes>, reply: Reply, canOpen: bool)
    requires Sound(remote, local) && Honest(remote, StartByte(local, |remote|), reply)
    requires OnlyPartialAnswersBreak(StartByte(local, |remote|), reply)
    ensures Attempt(local, |remote|, reply, canOpen).1 == None ==>
              Attempt(local, |remote|, reply, canOpen).0 == Some(remote)
  {
    WhenOneAnswerIsSafe(remote, local, reply, canOpen);
    var (after, failure) := Attempt(local, |remote|, reply, canOpen);
    if failure == None {
      assert after.Some? && |after.value| == |remote| && after.value <= remote;
      assert after.value == remote[..|remote|] == remote;
    }
  }

  /** A file that grew too long is replaced by the next answer that is accepted. */
  lemma TooLongIsReplaced(remote: Bytes, local: Option<Bytes>, reply: Reply)
    requires local.Some? && |local.value| > |remote|
    requires reply.Reply? && (reply.status == 200 || reply.status == 206)
    requires Honest(remote, StartByte(local, |remote|), reply)
    ensures var after := Attempt(local, |remote|, reply, true).0;
            after == Some(reply.body) && after.value <= remote
  {
  }

  /** Without the side condition: a resumed request answered in full but cut short leaves
      garbage that the next resume completes to the right size and reports as success. */
  lemma BrokenFullAnswerCanPassAsSuccess(a: bv8, b: bv8, c: bv8)
    requires a != b
    ensures var remote := [a, b, c];
            var first := Attempt(Some([a]), 3, Reply(200, [a], true), true);
            var second := Attempt(first.0, 3, Reply(206, [c], false), true);
            && Honest(remote, 1, Reply(200, [a], true)) && Honest(remote, 2, Reply(206, [c], false))
            && first == (Some([a, a]), Some(Interrupted))
            && second.1 == None && second.0 != Some(remote)
  {
    var remote := [a, b, c];
    var first := Attempt(Some([a]), 3, Reply(200, [a], true), true);
    assert [a] + [a] == [a, a] && [a, a] + [c] == [a, a, c];
    assert remote[2..] == [c] && remote[..1] == [a];
    assert [a, a, c][1] != remote[1];
  }

  // ---- Runs of attempts -------------------------------------------------------------

  datatype Try = Try(reply: Reply, canOpen: bool)

  function FileAfter(remote: Bytes, local: Option<Bytes>, tries: seq<Try>): Option<Bytes> {
    if tries == [] then local
    else
      var before := FileAfter(remote, local, tries[..|tries| - 1]);
      Attempt(before, |remote|, tries[|tries| - 1].reply, tries[|tries| - 1].canOpen).0
  }

  function LastStart(remote: Bytes, local: Option<Bytes>, tries: seq<Try>): nat
    requires tries != []
  {
    StartByte(FileAfter(remote, local, tries[..|tries| - 1]), |remote|)
  }

  ghost predicate Fair(remote: Bytes, local: Option<Bytes>, tries: seq<Try>) {
    tries != [] ==>
      var start := LastStart(remote, local, tries);
      var reply := tries[|tries| - 1].reply;
      Fair(remote, local, tries[..|tries| - 1]) && Honest(remote, start, reply) && OnlyPartialAnswersBreak(start, reply)
  }

  /** Over any run of interrupted attempts the file is a prefix of the remote file or longer. */
  lemma {:induction false} FileStaysSound(remote: Bytes, local: Option<Bytes>, tries: seq<Try>)
    requires Sound(remote, local) && Fair(remote, local, tries)
    ensures Sound(remote, FileAfter(remote, local, tries))
  {
    if tries != [] {
      var before, last := tries[..|tries| - 1], tries[|tries| - 1];
      FileStaysSound(remote, local, before);
      WhenOneAnswerIsSafe(remote, FileAfter(remote, local, before), last.reply, last.canOpen);
    }
  }

  lemma {:induction false} FairPrefix(remote: Bytes, local: Option<Bytes>, tries: seq<Try>, n: nat)
    requires Fair(remote, local, tries) && n <= |tries|
    ensures Fair(remote, local, tries[..n])
  {
    if n == |tries| {
      assert tries[..n] == tries;
    } else {
      FairPrefix(remote, local, tries[..|tries| - 1], n);
      assert tries[..|tries| - 1][..n] == tries[..n];
    }
  }

  /** A complete file is left alone. */
  lemma CompleteStays(remote: Bytes)
    ensures forall reply, canOpen :: Attempt(Some(remote), |remote|, reply, canOpen) == (Some(remote), None)
  {
  }

  lemma FairLast(remote: Bytes, local: Option<Bytes>, tries: seq<Try>)
    requires Fair(remote, local, tries) && tries != []
    ensures var before, t := FileAfter(remote, local, tries[..|tries| - 1]), tries[|tries| - 1];
            && Honest(remote, StartByte(before, |remote|), t.reply)
            && OnlyPartialAnswersBreak(StartByte(before, |remote|), t.reply)
            && FileAfter(remote, local, tries) == Attempt(before, |remote|, t.reply, t.canOpen).0
  {
    hide Honest, OnlyPartialAnswersBreak, Attempt, StartByte;
  }

  /** In any fair run every attempt that reports success, the first or a later one, leaves exactly the
      remote file, and whatever is attempted afterwards leaves it there and reports success again. */
  lemma {:induction false} EverySuccessIsTheRemoteFile(remote: Bytes, local: Option<Bytes>, tries: seq<Try>, n: nat)
    requires Sound(remote, local) && Fair(remote, local, tries) && n < |tries|
    requires Attempt(FileAfter(remote, local, tries[..n]), |remote|, tries[n].reply, tries[n].canOpen).1 == None
    ensures FileAfter(remote, local, tries) == Some(remote)
    ensures forall reply, canOpen ::
              Attempt(FileAfter(remote, local, tries), |remote|, reply, canOpen) == (Some(remote), None)
    decreases |tries|
  {
    hide *;
    var last := |tries| - 1;
    var before := tries[..last];
    CompleteStays(remote);
    FairPrefix(remote, local, tries, last);
    FairLast(remote, local, tries);
    if n == last {
      FileStaysSound(remote, local, before);
      SuccessMeansEqual(remote, FileAfter(remote, local, before), tries[last].reply, tries[last].canOpen);
    } else {
      assert before[..n] == tries[..n];
      EverySuccessIsTheRemoteFile(remote, local, before, n);
    }
  }

  /** The remaining bytes; a file that is absent or too long has everything to go. */
  function Remaining(remote: Bytes, local: Option<Bytes>): nat {
    if local.Some? && |local.value| <= |remote| then |remote| - |local.value| else |remote|
  }

  /** An attempt that resumed and received something. */
  predicate Progressing(remote: Bytes, local: Option<Bytes>, t: Try) {
    && StartByte(local, |remote|) > 0 && t.canOpen
    && t.reply.Reply? && t.reply.status == 206 && t.reply.body != []
  }

  lemma PartialAnswersProgress(remote: Bytes, local: Option<Bytes>, t: Try)
    requires Sound(remote, local) && Honest(remote, StartByte(local, |remote|), t.reply)
    requires Progressing(remote, local, t)
    ensures Remaining(remote, Attempt(local, |remote|, t.reply, true).0) == Remaining(remote, local) - |t.reply.body|
  {
  }

  /** Every attempt of the run resumed and received something. */
  ghost predicate AllProgress(remote: Bytes, local: Option<Bytes>, tries: seq<Try>) {
    tries != [] ==>
      var before := tries[..|tries| - 1];
      AllProgress(remote, local, before) && Progressing(remote, FileAfter(remote, local, before), tries[|tries| - 1])
  }

  /** So resuming ends: from a non-empty prefix at most as many such attempts are possible as
      bytes are missing, and when none is missing the next attempt reports success at once. */
  lemma {:induction false} ResumingEnds(remote: Bytes, local: Option<Bytes>, tries: seq<Try>)
    requires Sound(remote, local) && Fair(remote, local, tries) && AllProgress(remote, local, tries)
    ensures |tries| + Remaining(remote, FileAfter(remote, local, tries)) <= Remaining(remote, local)
    ensures tries != [] && Remaining(remote, FileAfter(remote, local, tries)) == 0 ==>
              forall reply :: Attempt(FileAfter(remote, local, tries), |remote|, reply, true) == (Some(remote), None)
  {
    if tries != [] {
      var before, last := tries[..|tries| - 1], tries[|tries| - 1];
      var file := FileAfter(remote, local, before);
      ResumingEnds(remote, local, before);
      FileStaysSound(remote, local, before);
      PartialAnswersProgress(remote, file, last);
      FileStaysSound(remote, local, tries);
      var after := FileAfter(remote, local, tries);
      if Remaining(remote, after) == 0 {
        assert |after.value| == |remote| && after.value == remote[..|remote|] == remote;
      }
    }
  }
}
