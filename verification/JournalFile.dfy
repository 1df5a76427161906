/** The flash file system the journal lives on, and the two routines that read and write frames through it. */
module JournalFile {
  import opened Bytes
  import opened Crc32
  import opened Frames

  /** /journal.dat, /journal.dat.old and /journal.dat.tmp. */
  datatype Path = DAT | OLD | TMP

  type Disk = map<Path, bytes>

  function Content(d: Disk, path: Path): (s: bytes) {
    if path in d then d[path] else []
  }

  /** The file system. `trail` records every state the flash has passed through, byte by byte inside a write:
    * a power cut leaves exactly one of them behind. `faults` counts what failed for no reason but the flash itself: a
    * mount, an open, a rename of what is there to a name that is free, a write or a read that stopped short. */
  class Flash {
    var files: Disk
    ghost var trail: seq<Disk>
    ghost var faults: nat

    constructor (files: Disk)
      ensures this.files == files && trail == [files] && faults == 0
    {
      this.files := files;
      trail, faults := [files], 0;
    }

    method Mount() returns (ok: bool)
      modifies this`faults
      ensures ok <==> faults == old(faults)
      ensures faults >= old(faults)
    {
      ok :| ok ==> true;
      if !ok {
        faults := faults + 1;
      }
    }

    method Remove(path: Path)
      modifies this`files, this`trail
      ensures files == old(files) - {path}
      ensures trail == old(trail) + [files]
    {
      files := files - {path};
      trail := trail + [files];
    }

    /** Atomic. Fails when there is nothing to move or the target name is taken, and may fail for reasons
      * of its own; a failed rename changes nothing. */
    method Rename(from: Path, to: Path) returns (ok: bool)
      modifies this
      ensures ok ==> from in old(files) && to !in old(files)
      ensures faults >= old(faults)
      ensures faults == old(faults) <==> (ok <==> from in old(files) && to !in old(files))
      ensures files == if ok then (old(files) - {from})[to := old(files)[from]] else old(files)
      ensures trail == old(trail) + [files]
    {
      ok :| ok ==> from in files && to !in files;
      if ok {
        files := (files - {from})[to := files[from]];
      } else if from in files && to !in files {
        faults := faults + 1;
      }
      trail := trail + [files];
    }

    /** Creates the file when it is missing; may fail. */
    method OpenAppend(path: Path) returns (ok: bool)
      modifies this
      ensures files == if ok then old(files)[path := Content(old(files), path)] else old(files)
      ensures trail == old(trail) + [files]
      ensures faults >= old(faults) && (ok <==> faults == old(faults))
    {
      ok :| ok ==> true;
      if ok {
        files := files[path := Content(files, path)];
      } else {
        faults := faults + 1;
      }
      trail := trail + [files];
    }

    /** Writes some prefix of `chunk`; a cut can leave any shorter prefix. */
    method Write(path: Path, chunk: bytes) returns (n: nat)
      requires path in files
      modifies this
      ensures n <= |chunk|
      ensures files == old(files)[path := old(files)[path] + chunk[..n]]
      ensures old(trail) <= trail
      ensures forall i | |old(trail)| <= i < |trail| ::
                exists k: nat | k <= n :: trail[i] == old(files)[path := old(files)[path] + chunk[..k]]
      ensures |trail| > |old(trail)| && trail[|trail| - 1] == files
      ensures faults >= old(faults) && (n == |chunk| <==> faults == old(faults))
    {
      n :| n <= |chunk|;
      if n < |chunk| {
        faults := faults + 1;
      }
      ghost var before := files;
      trail := trail + seq(n + 1, k requires 0 <= k <= n => before[path := before[path] + chunk[..k]]);
      files := files[path := files[path] + chunk[..n]];
    }
  }

  /** SpiffsJournalFile: one path of the flash readable for sequential reading or appending. */
  class SpiffsJournalFile {
    const flash: Flash
    const path: Path
    var unread: bytes
    var isOpen: bool
    ghost var flushed: seq<nat>

    constructor (flash: Flash, path: Path)
      ensures this.flash == flash && this.path == path && !isOpen && flushed == []
    {
      this.flash := flash;
      this.path := path;
      unread, isOpen, flushed := [], false, [];
    }

    method OpenForAppend() returns (ok: bool)
      modifies this`isOpen, flash
      ensures isOpen == ok
      ensures flash.files == if ok then old(flash.files)[path := Content(old(flash.files), path)] else old(flash.files)
      ensures flash.trail == old(flash.trail) + [flash.files]
      ensures flash.faults >= old(flash.faults) && (ok <==> flash.faults == old(flash.faults))
    {
      ok := flash.OpenAppend(path);
      isOpen := ok;
    }

    /** Reports failure only of a file that is not open: what the flush itself comes to is not looked at. `flushed` records
      * how long the file was each time. */
    method Flush() returns (ok: bool)
      modifies this`flushed
      ensures ok == isOpen
      ensures flushed == old(flushed) + [|Content(flash.files, path)|]
    {
      flushed := flushed + [|Content(flash.files, path)|];
      return isOpen;
    }

    /** A missing file reads as empty; opening an existing one may fail. A read error stops the reader like the end
      * of the file does, so all it ever sees is the first `reach` bytes. */
    method OpenForRead() returns (ok: bool, ghost reach: nat)
      modifies this, flash`faults
      ensures path !in flash.files ==> ok
      ensures flash.faults >= old(flash.faults)
      ensures flash.faults == old(flash.faults) <==> ok && reach == |Content(flash.files, path)|
      ensures reach <= |Content(flash.files, path)| && (ok ==> unread == Content(flash.files, path)[..reach])
    {
      var content := Content(flash.files, path);
      var end: nat :| end <= |content|;
      unread, reach := content[..end], end;
      ok :| path !in flash.files ==> ok;
      if !ok || reach < |content| {
        flash.faults := flash.faults + 1;
      }
    }

    /** Any nonempty part of what was asked for; empty only at the end of the file. */
    method Read(len: nat) returns (chunk: bytes)
      modifies this
      ensures |chunk| <= len && old(unread) == chunk + unread
      ensures len > 0 && old(unread) != [] ==> chunk != []
    {
      var n: nat :| n <= len && n <= |unread| && (len > 0 && unread != [] ==> n > 0);
      chunk := unread[..n];
      unread := unread[n..];
    }

    /** read_exact: keeps reading until `len` bytes arrived or the file ran out. */
    method ReadExact(len: nat) returns (got: bytes)
      modifies this
      ensures got == old(unread)[..Min(len, |old(unread)|)]
      ensures unread == old(unread)[Min(len, |old(unread)|)..]
    {
      got := [];
      while |got| < len
        invariant |got| <= len && got + unread == old(unread)
      {
        var chunk := Read(len - |got|);
        if chunk == [] {
          break;
        }
        got := got + chunk;
      }
    }
  }

  /** What a scan of `s` hands to its callback. */
  function OkBodies(frames: seq<ScanFrame>): (bodies: seq<bytes>) {
    if frames == [] then []
    else (if frames[0].outcome == OK then [frames[0].body] else []) + OkBodies(frames[1..])
  }

  /** The bodies delivered by a scan are the recovered ones; at most one report, the last, is not OK. */
  lemma {:induction false} ScanDelivers(s: bytes, offset: nat)
    ensures OkBodies(Scan(s, offset)) == Recovered(s)
    ensures |Recovered(s)| <= |Scan(s, offset)| <= |Recovered(s)| + 1
    ensures forall i | 0 <= i < |Scan(s, offset)| :: Scan(s, offset)[i].outcome == OK <==> i < |Recovered(s)|
    ensures forall i | 0 <= i < |Recovered(s)| ::
              Scan(s, offset)[i].body == Recovered(s)[i] && Scan(s, offset)[i].frameSize == |Recovered(s)[i]| + FRAME_OVERHEAD
    decreases |s|
  {
    var h := ReadHead(s);
    hide ReadHead;
    if h.Committed? {
      ScanDelivers(s[h.size..], offset + h.size);
      assert Scan(s, offset)[1..] == Scan(s[h.size..], offset + h.size);
    }
  }

  /** What a reader that stops early recovers is the beginning of what is there. */
  lemma {:induction false} RecoveredPrefix(s: bytes, reach: nat)
    requires reach <= |s|
    ensures Recovered(s[..reach]) <= Recovered(s)
    decreases |s|
  {
    HeadOfPrefix(s, reach);
    var h := ReadHead(s[..reach]);
    hide ReadHead;
    if h.Committed? {
      RecoveredPrefix(s[h.size..], reach - h.size);
      assert s[..reach][h.size..] == s[h.size..][..reach - h.size];
    }
  }

  lemma HeadOfPrefix(s: bytes, reach: nat)
    requires reach <= |s|
    ensures ReadHead(s[..reach]).Committed? ==> ReadHead(s) == ReadHead(s[..reach])
  {
    var t := s[..reach];
    if ReadHead(t).Committed? {
      var n := BytesToU32(t[..4]);
      assert t[..4] == s[..4] && t[4..4 + n] == s[4..4 + n] && t[4 + n..8 + n] == s[4 + n..8 + n];
    }
  }

  /** The four ways the scan loop reads the start of `s`, by how far it gets. */
  lemma HeadCut(s: bytes)
    ensures |s| < 4 ==> ReadHead(s) == if s == [] then CleanEnd else Damaged(INCOMPLETE)
    ensures |s| >= 4 && |s| < 8 + BytesToU32(s[..4]) ==> ReadHead(s) == Damaged(INCOMPLETE)
  {
  }

  lemma HeadWhole(s: bytes, n: nat)
    requires |s| >= 8 + n && n == BytesToU32(s[..4])
    ensures ReadHead(s) ==
            if BytesToU32(s[4 + n..8 + n]) != Crc(s[4..4 + n]) then Damaged(CRC_FAIL)
            else if |s| < 9 + n then Damaged(INCOMPLETE)
            else if s[8 + n] != COMMIT_MARKER then Damaged(BAD_COMMIT_MARKER)
            else Committed(s[4..4 + n], 9 + n)
  {
    hide Crc;
  }

  /** Reading on: the next `k` bytes and what is left. */
  lemma Taken(s: bytes, at: nat, k: nat)
    requires at + k <= |s|
    ensures s[at..][..k] == s[at..at + k] && s[at..][k..] == s[at + k..]
  {
  }

  /** One round of scan_journal's loop: length, body, CRC and marker, in that order. */
  method NextFrame(file: SpiffsJournalFile) returns (head: Head)
    modifies file
    ensures head == ReadHead(old(file.unread))
    ensures head.Committed? ==> file.unread == old(file.unread)[head.size..]
  {
    hide Crc;
    hide ReadHead;
    hide BytesToU32;
    ghost var s := file.unread;
    HeadCut(s);
    var len := file.ReadExact(4);
    if |len| < 4 {
      return if |len| > 0 then Damaged(INCOMPLETE) else CleanEnd;
    }
    var n := BytesToU32(len);
    assert len == s[..4] && file.unread == s[4..];
    var body := file.ReadExact(n);
    if |body| < n {
      return Damaged(INCOMPLETE);
    }
    Taken(s, 4, n);
    head := ReadTrailer(file, body, s);
  }

  /** The rest of the round once the body is there: the CRC is checked before the marker is read. */
  method ReadTrailer(file: SpiffsJournalFile, body: bytes, ghost s: bytes) returns (head: Head)
    requires |s| >= 4 + |body| && |body| == BytesToU32(s[..4])
    requires body == s[4..4 + |body|] && file.unread == s[4 + |body|..]
    modifies file
    ensures head == ReadHead(s)
    ensures head.Committed? ==> file.unread == s[head.size..]
  {
    hide Crc;
    hide ReadHead;
    hide BytesToU32;
    ghost var n := |body|;
    HeadCut(s);
    var stored := file.ReadExact(4);
    if |stored| < 4 {
      return Damaged(INCOMPLETE);
    }
    HeadWhole(s, n);
    Taken(s, 4 + n, 4);
    var actual := ComputeCrc(body);
    if BytesToU32(stored) != actual {
      return Damaged(CRC_FAIL);
    }
    var marker := file.ReadExact(1);
    if |marker| < 1 {
      return Damaged(INCOMPLETE);
    }
    Taken(s, 8 + n, 1);
    if marker[0] != COMMIT_MARKER {
      return Damaged(BAD_COMMIT_MARKER);
    }
    return Committed(body, 4 + |body| + 4 + 1);
  }

  /** scan_journal: the frames in the order the callback sees them, and the number of OK ones. They are those of the
    * file, or of the first `reach` bytes of it when a read fails there. */
  method ScanJournal(file: SpiffsJournalFile)
    returns (readable: bool, frames: seq<ScanFrame>, okCount: nat, ghost reach: nat)
    modifies file, file.flash`faults
    ensures file.path !in file.flash.files ==> readable
    ensures file.flash.faults >= old(file.flash.faults)
    ensures file.flash.faults == old(file.flash.faults) <==>
              readable && reach == |Content(file.flash.files, file.path)|
    ensures var content := Content(file.flash.files, file.path);
            && reach <= |content|
            && (readable ==> frames == Scan(content[..reach], 0) && okCount == |Recovered(content[..reach])|)
    ensures !readable ==> frames == [] && okCount == 0
  {
    hide ReadHead;
    hide Scan;
    hide Recovered;
    frames, okCount := [], 0;
    readable, reach := file.OpenForRead();
    if !readable {
      return;
    }
    ghost var whole := file.unread;
    var offset := 0;
    while true
      modifies file
      invariant frames + Scan(file.unread, offset) == Scan(whole, 0)
      invariant okCount + |Recovered(file.unread)| == |Recovered(whole)|
      decreases |file.unread|
    {
      ScanByHead(file.unread, offset);
      var head := NextFrame(file);
      match head {
        case CleanEnd =>
          break;
        case Damaged(outcome) =>
          frames := frames + [ScanFrame(offset, 0, [], outcome)];
          break;
        case Committed(body, size) =>
          var frame := ScanFrame(offset, size, body, OK);
          MovedOver(frames, frame, Scan(file.unread, offset + size));
          frames := frames + [frame];
          okCount := okCount + 1;
          offset := offset + size;
      }
    }
  }

  /** What one round of the loop adds. */
  lemma ScanByHead(s: bytes, offset: nat)
    ensures Scan(s, offset) == match ReadHead(s)
                               case CleanEnd => []
                               case Damaged(outcome) => [ScanFrame(offset, 0, [], outcome)]
                               case Committed(body, size) => [ScanFrame(offset, size, body, OK)] + Scan(s[size..], offset + size)
    ensures |Recovered(s)| == match ReadHead(s)
                              case Committed(_, size) => 1 + |Recovered(s[size..])|
                              case _ => 0
  {
    hide ReadHead;
  }

  lemma MovedOver<T>(done: seq<T>, next: T, rest: seq<T>)
    ensures done + ([next] + rest) == done + [next] + rest
  {
  }

  /** The states an append of one frame can pass through: untouched, or the file grown by a prefix of it. */
  ghost predicate AppendState(before: Disk, d: Disk, path: Path, frame: bytes) {
    d == before || exists k: nat | k <= |frame| :: d == before[path := Content(before, path) + frame[..k]]
  }

  /** A trail continued by states of one append. */
  ghost predicate AppendTrail(start: seq<Disk>, trail: seq<Disk>, before: Disk, path: Path, frame: bytes) {
    start <= trail && forall i | |start| <= i < |trail| :: AppendState(before, trail[i], path, frame)
  }

  ghost predicate GrownBy(before: Disk, d: Disk, path: Path, frame: bytes, k: nat) {
    k <= |frame| && d == before[path := Content(before, path) + frame[..k]]
  }

  lemma FrameParts(body: bytes)
    ensures var f, n := Frame(body), |body|;
            && |f| == 9 + n && f[0..4] == U32ToBytes(n) && f[4..4 + n] == body
            && f[4 + n..8 + n] == U32ToBytes(Crc(body)) && f[8 + n..9 + n] == [COMMIT_MARKER]
  {
    hide Crc;
    hide U32ToBytes;
  }

  /** What an append that reported failure leaves: the file untouched, or grown by a part of the frame, never all of it. */
  ghost predicate AppendFailed(before: Disk, d: Disk, path: Path, frame: bytes) {
    d == before || exists k: nat | k < |frame| :: d == before[path := Content(before, path) + frame[..k]]
  }

  /** append_journal_frame: length and body, CRC, then the commit marker, each flushed in turn. It fails if and only if
    * the flash does. Success means the whole frame is there; failure means it is not, for the only flush behind the
    * marker is that of an open file. */
  method AppendJournalFrame(file: SpiffsJournalFile, body: bytes) returns (ok: bool)
    modifies file`isOpen, file`flushed, file.flash
    ensures file.flash.faults >= old(file.flash.faults) && (ok <==> file.flash.faults == old(file.flash.faults))
    ensures var size := |Content(old(file.flash.files), file.path)| + |body|;
            ok ==> file.flushed == old(file.flushed) + [size + 4, size + 8, size + 9]
    ensures ok ==> file.flash.files == old(file.flash.files)[file.path := Content(old(file.flash.files), file.path) + Frame(body)]
    ensures !ok ==> AppendFailed(old(file.flash.files), file.flash.files, file.path, Frame(body))
    ensures AppendTrail(old(file.flash.trail), file.flash.trail, old(file.flash.files), file.path, Frame(body))
  {
    hide Crc;
    hide Frame;
    hide U32ToBytes;
    var flash, path := file.flash, file.path;
    ghost var before, frame := flash.files, Frame(body);
    FrameParts(body);
    ok := file.OpenForAppend();
    if !ok {
      return;
    }
    assert Content(before, path) + frame[..0] == Content(before, path);
    assert frame[..|frame|] == frame;
    hide AppendState;
    ghost var k;
    ok, k := WritePart(flash, path, U32ToBytes(|body|), before, frame, 0);
    if ok && body != [] {
      ok, k := WritePart(flash, path, body, before, frame, 4);
    }
    if ok {
      ok := file.Flush();
    }
    if ok {
      ok, k := AppendTrailer(file, body, before);
    }
  }

  lemma GrownSize(before: Disk, d: Disk, path: Path, frame: bytes, k: nat)
    requires GrownBy(before, d, path, frame, k)
    ensures |Content(d, path)| == |Content(before, path)| + k
  {
  }

  /** The CRC and the commit marker, behind a body that has been written. */
  method AppendTrailer(file: SpiffsJournalFile, body: bytes, ghost before: Disk) returns (ok: bool, ghost k: nat)
    requires file.isOpen && GrownBy(before, file.flash.files, file.path, Frame(body), 4 + |body|)
    modifies file.flash, file`flushed
    ensures file.flash.faults >= old(file.flash.faults) && (ok <==> file.flash.faults == old(file.flash.faults))
    ensures var size := |Content(before, file.path)| + |body|;
            ok ==> file.flushed == old(file.flushed) + [size + 8, size + 9]
    ensures GrownBy(before, file.flash.files, file.path, Frame(body), k) && (ok <==> k == |Frame(body)|)
    ensures AppendTrail(old(file.flash.trail), file.flash.trail, before, file.path, Frame(body))
  {
    hide Crc;
    hide Frame;
    hide U32ToBytes;
    hide AppendState;
    var flash, path := file.flash, file.path;
    ghost var frame := Frame(body);
    FrameParts(body);
    var crc := ComputeCrc(body);
    hide GrownBy;
    hide Content;
    ok, k := WritePart(flash, path, U32ToBytes(crc), before, frame, 4 + |body|);
    GrownSize(before, flash.files, path, frame, k);
    if ok {
      ok := file.Flush();
    }
    if ok {
      ok, k := WritePart(flash, path, [COMMIT_MARKER], before, frame, 8 + |body|);
      GrownSize(before, flash.files, path, frame, k);
    }
    if ok {
      ok := file.Flush();
    }
  }

  /** One write of the sequence: `part` is what follows the first `done` bytes of the frame. */
  method WritePart(flash: Flash, path: Path, part: bytes, ghost before: Disk, ghost frame: bytes, ghost done: nat)
    returns (complete: bool, ghost k: nat)
    requires done + |part| <= |frame| && frame[done..done + |part|] == part
    requires GrownBy(before, flash.files, path, frame, done)
    modifies flash
    ensures flash.faults >= old(flash.faults) && (complete <==> flash.faults == old(flash.faults))
    ensures done <= k <= done + |part| && (complete <==> k == done + |part|)
    ensures GrownBy(before, flash.files, path, frame, k)
    ensures AppendTrail(old(flash.trail), flash.trail, before, path, frame)
  {
    var n := flash.Write(path, part);
    complete, k := n == |part|, done + n;
    forall j: nat | j <= n
      ensures Content(before, path) + frame[..done] + part[..j] == Content(before, path) + frame[..done + j]
    {
      assert frame[..done] + part[..j] == frame[..done + j];
    }
    forall i | |old(flash.trail)| <= i < |flash.trail|
      ensures AppendState(before, flash.trail[i], path, frame)
    {
      var j: nat :| j <= n && flash.trail[i] == old(flash.files)[path := old(flash.files)[path] + part[..j]];
      assert flash.trail[i] == before[path := Content(before, path) + frame[..done + j]];
    }
  }
}
