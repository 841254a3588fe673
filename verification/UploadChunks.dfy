/** How the upload thread cuts a compressed replay into messages that can be put together again. */
module UploadChunks {
  import opened Bytes
  import Crc32

  const CHUNK_SIZE: nat := 65536
  const LOCAL_UID: nat := 64
  const HEADER: nat := 92
  const MAX_DATA: nat := CHUNK_SIZE - HEADER

  function Bits(b: Byte): bv8 {
    b as bv8
  }

  function AsBits(data: seq<Byte>): seq<bv8> {
    if data == [] then [] else AsBits(data[..|data| - 1]) + [Bits(data[|data| - 1])]
  }

  /** Bytes are handed to the checksum as they are. */
  lemma {:induction false} AsBitsAt(data: seq<Byte>, k: nat)
    requires k < |data|
    ensures |AsBits(data)| == |data| && AsBits(data)[k] == Bits(data[k])
  {
    hide Bits;
    var n := |data| - 1;
    if k < n {
      AsBitsAt(data[..n], k);
    } else if n > 0 {
      AsBitsAt(data[..n], n - 1);
    }
  }

  lemma NineBits()
    ensures Bits(0x31) == 0x31 && Bits(0x32) == 0x32 && Bits(0x33) == 0x33 && Bits(0x34) == 0x34 && Bits(0x35) == 0x35
    ensures Bits(0x36) == 0x36 && Bits(0x37) == 0x37 && Bits(0x38) == 0x38 && Bits(0x39) == 0x39
  {
  }

  const NINE_DIGITS: seq<Byte> := [0x31, 0x32, 0x33, 0x34, 0x35, 0x36, 0x37, 0x38, 0x39]

  /** The checksum of a chunk that is "123456789". */
  lemma ChunkCheckValue()
    ensures Crc32.Checksum(AsBits(NINE_DIGITS)) == 0xcbf4_3926
  {
    NineBits();
    Crc32.CheckValue();
    hide Bits;
    forall k: nat | k < 9 ensures |AsBits(NINE_DIGITS)| == 9 && AsBits(NINE_DIGITS)[k] == Bits(NINE_DIGITS[k]) {
      AsBitsAt(NINE_DIGITS, k);
    }
    hide AsBits;
    assert AsBits(NINE_DIGITS)[0] == Bits(NINE_DIGITS[0]);
    assert AsBits(NINE_DIGITS) == Crc32.NINE_DIGITS;
  }

  function ChunkChecksum(data: seq<Byte>): (n: nat)
    ensures n < U32
  {
    Crc32.Checksum(AsBits(data)) as nat
  }

  /** `ws_uchunk_header`, packed. */
  function Header(uid: seq<Byte>, id: nat, data: seq<Byte>, index: nat, total: nat): (h: seq<Byte>)
    requires |uid| == LOCAL_UID
    ensures |h| == HEADER
  {
    uid + Store(id, 8) + Put32(ChunkChecksum(data)) + Store(index, 8) + Store(total, 8)
  }

  function Payload(message: seq<Byte>): seq<Byte>
    requires |message| >= HEADER
  {
    message[HEADER..]
  }

  function ChunkIndex(message: seq<Byte>): nat
    requires |message| >= HEADER
  {
    Load(message[76..84])
  }

  function ChunkTotal(message: seq<Byte>): nat
    requires |message| >= HEADER
  {
    Load(message[84..92])
  }

  lemma HeaderFields(uid: seq<Byte>, id: nat, data: seq<Byte>, index: nat, total: nat)
    requires |uid| == LOCAL_UID && index < Pow2(64) && total < Pow2(64)
    ensures var m := Header(uid, id, data, index, total) + data;
      && Payload(m) == data && ChunkIndex(m) == index && ChunkTotal(m) == total
      && m[..LOCAL_UID] == uid && m[LOCAL_UID..72] == Store(id, 8) && (id < Pow2(64) ==> Load(m[LOCAL_UID..72]) == id)
      && Get32(m[72..76]) == ChunkChecksum(data)
  {
    hide Store, Load, Put32, Get32, ChunkChecksum, Pow2;
    var m := Header(uid, id, data, index, total) + data;
    assert m[LOCAL_UID..72] == Store(id, 8);
    if id < Pow2(64) { LoadStore(id, 8); }
    assert m[72..76] == Put32(ChunkChecksum(data));
    assert m[76..84] == Store(index, 8);
    assert m[84..92] == Store(total, 8);
    LoadStore(index, 8);
    LoadStore(total, 8);
    Get32Put32(ChunkChecksum(data));
  }

  /** The payloads in the order of their indices. */
  function Joined(sent: seq<seq<Byte>>): seq<Byte>
    requires forall k | 0 <= k < |sent| :: |sent[k]| >= HEADER
  {
    if sent == [] then [] else Joined(sent[..|sent| - 1]) + Payload(sent[|sent| - 1])
  }

  /** A message that says what it carries: which part of how many, whose, with a matching checksum. */
  predicate Describes(message: seq<Byte>, uid: seq<Byte>, id: nat, index: nat, total: nat) {
    && HEADER < |message| <= CHUNK_SIZE
    && message[..LOCAL_UID] == uid && message[LOCAL_UID..72] == Store(id, 8)
    && ChunkIndex(message) == index && ChunkTotal(message) == total
    && Get32(message[72..76]) == ChunkChecksum(Payload(message))
  }

  /** Messages that carry a file: all but the last are full, and together they are the file. */
  predicate Carries(sent: seq<seq<Byte>>, uid: seq<Byte>, id: nat, file: seq<Byte>) {
    && (forall k | 0 <= k < |sent| :: Describes(sent[k], uid, id, k, |sent|))
    && (forall k | 0 <= k < |sent| - 1 :: |sent[k]| == CHUNK_SIZE)
    && Joined(sent) == file
  }

  /** `ftell` at the end of a file, as the 32-bit arithmetic after it sees the result: -1 if it does not fit a
      `long`. */
  function Tell(length: nat): nat {
    if length < LONG_LIMIT then length else U32 - 1
  }

  /** Where the file stands after `n` of the chunks it is rounded up to. */
  predicate At(n: nat, total: nat, length: nat, pos: nat) {
    && pos <= length && n <= total && total == (length + MAX_DATA - 1) / MAX_DATA
    && (pos == n * MAX_DATA || (pos == length && n == total))
  }

  lemma NextAt(n: nat, total: nat, length: nat, pos: nat, bytes: nat)
    requires At(n, total, length, pos) && n < total
    requires bytes == if length - pos < MAX_DATA then length - pos else MAX_DATA
    ensures 0 < bytes <= MAX_DATA && At(n + 1, total, length, pos + bytes)
    ensures n < total - 1 ==> bytes == MAX_DATA
  {
  }

  /** The first messages of `total`: each describes itself, and all before the last possible are full. */
  predicate Begun(sent: seq<seq<Byte>>, uid: seq<Byte>, id: nat, total: nat) {
    && (forall k | 0 <= k < |sent| :: Describes(sent[k], uid, id, k, total))
    && (forall k | 0 <= k < |sent| && k < total - 1 :: |sent[k]| == CHUNK_SIZE)
  }

  lemma BegunOne(sent: seq<seq<Byte>>, uid: seq<Byte>, id: nat, total: nat, m: seq<Byte>)
    requires Begun(sent, uid, id, total) && Describes(m, uid, id, |sent|, total)
    requires |sent| < total - 1 ==> |m| == CHUNK_SIZE
    ensures Begun(sent + [m], uid, id, total)
  {
    hide Describes;
  }

  lemma BegunLengths(sent: seq<seq<Byte>>, uid: seq<Byte>, id: nat, total: nat)
    requires Begun(sent, uid, id, total)
    ensures forall k | 0 <= k < |sent| :: |sent[k]| >= HEADER
  {
  }

  /** What has been sent so far. */
  ghost predicate Sending(sent: seq<seq<Byte>>, uid: seq<Byte>, id: nat, total: nat, file: seq<Byte>, pos: nat) {
    && At(|sent|, total, |file|, pos)
    && Begun(sent, uid, id, total)
    && (BegunLengths(sent, uid, id, total); Joined(sent) == file[..pos])
  }

  lemma ChunkDescribes(uid: seq<Byte>, id: nat, data: seq<Byte>, index: nat, total: nat)
    requires |uid| == LOCAL_UID && index < total < Pow2(64) && 0 < |data| <= MAX_DATA
    ensures var m := Header(uid, id, data, index, total) + data;
      Describes(m, uid, id, index, total) && Payload(m) == data && |m| == HEADER + |data|
  {
    hide Header, Payload, ChunkIndex, ChunkTotal, Get32, ChunkChecksum, Pow2;
    HeaderFields(uid, id, data, index, total);
  }

  lemma JoinOne(sent: seq<seq<Byte>>, m: seq<Byte>, file: seq<Byte>, pos: nat, end: nat)
    requires (forall k | 0 <= k < |sent| :: |sent[k]| >= HEADER) && |m| >= HEADER
    requires pos <= end <= |file| && Joined(sent) == file[..pos] && Payload(m) == file[pos..end]
    ensures Joined(sent + [m]) == file[..end]
  {
    assert (sent + [m])[..|sent|] == sent && file[..end] == file[..pos] + file[pos..end];
  }

  lemma SendOne(sent: seq<seq<Byte>>, uid: seq<Byte>, id: nat, total: nat, file: seq<Byte>, pos: nat, bytes: nat,
                m: seq<Byte>)
    requires Sending(sent, uid, id, total, file, pos) && |sent| < total
    requires bytes == if |file| - pos < MAX_DATA then |file| - pos else MAX_DATA
    requires |m| == HEADER + bytes && Describes(m, uid, id, |sent|, total) && Payload(m) == file[pos..pos + bytes]
    ensures Sending(sent + [m], uid, id, total, file, pos + bytes)
  {
    hide At, Payload, Describes, Joined, Begun;
    NextAt(|sent|, total, |file|, pos, bytes);
    BegunLengths(sent, uid, id, total);
    BegunOne(sent, uid, id, total, m);
    JoinOne(sent, m, file, pos, pos + bytes);
  }

  lemma SendingDone(sent: seq<seq<Byte>>, uid: seq<Byte>, id: nat, total: nat, file: seq<Byte>, pos: nat)
    requires Sending(sent, uid, id, total, file, pos) && |sent| == total
    ensures Carries(sent, uid, id, file)
  {
    hide Describes;
    assert pos == |file| && file[..pos] == file;
  }

  method ChunkLoop(uid: seq<Byte>, id: nat, file: seq<Byte>, totalChunks: nat) returns (sent: seq<seq<Byte>>)
    requires |uid| == LOCAL_UID && totalChunks < Pow2(64)
    requires totalChunks == (|file| + MAX_DATA - 1) / MAX_DATA
    ensures Carries(sent, uid, id, file) && |sent| == totalChunks
  {
    hide Sending, Carries, Header, Describes, Payload, Pow2;
    sent := [];
    var pos := 0;
    StartSending(uid, id, totalChunks, file);
    for i := 0 to totalChunks
      invariant |sent| == i
      invariant Sending(sent, uid, id, totalChunks, file, pos)
    {
      var bytes := if |file| - pos < MAX_DATA then |file| - pos else MAX_DATA;
      NextChunk(sent, uid, id, totalChunks, file, pos, bytes);
      if bytes > 0 {
        var data := file[pos..pos + bytes];
        var m := Header(uid, id, data, i, totalChunks) + data;
        ChunkDescribes(uid, id, data, i, totalChunks);
        SendOne(sent, uid, id, totalChunks, file, pos, bytes, m);
        sent := sent + [m];
        pos := pos + bytes;
      }
    }
    SendingDone(sent, uid, id, totalChunks, file, pos);
  }

  /** `kz_rp_upload_thread` over one file: what `ftell` can measure is carried by the messages, a larger file
      is not sent at all. */
  method SendChunks(uid: seq<Byte>, id: nat, file: seq<Byte>) returns (sent: seq<seq<Byte>>)
    requires |uid| == LOCAL_UID
    ensures |file| < LONG_LIMIT ==> Carries(sent, uid, id, file) && |sent| == (|file| + MAX_DATA - 1) / MAX_DATA
    ensures |file| >= LONG_LIMIT ==> sent == []
  {
    hide Carries;
    var totalChunks := (Tell(|file|) + (MAX_DATA - 1)) % U32 / MAX_DATA;
    if totalChunks == 0 && |file| > 0 { return []; } // the loop does not run
    Pow2Of64();
    sent := ChunkLoop(uid, id, file, totalChunks);
  }

  lemma NextChunk(sent: seq<seq<Byte>>, uid: seq<Byte>, id: nat, total: nat, file: seq<Byte>, pos: nat, bytes: int)
    requires Sending(sent, uid, id, total, file, pos) && |sent| < total
    requires bytes == if |file| - pos < MAX_DATA then |file| - pos else MAX_DATA
    ensures 0 < bytes <= MAX_DATA && pos + bytes <= |file|
  {
    NextAt(|sent|, total, |file|, pos, bytes);
  }

  lemma StartSending(uid: seq<Byte>, id: nat, total: nat, file: seq<Byte>)
    requires total == (|file| + MAX_DATA - 1) / MAX_DATA
    ensures Sending([], uid, id, total, file, 0)
  {
    assert file[..0] == [];
  }

  /** The order in which messages arrive does not matter: two uploads with the same messages carry the same file. */
  lemma SameMessagesSameFile(a: seq<seq<Byte>>, b: seq<seq<Byte>>, uid: seq<Byte>, id: nat, f: seq<Byte>, g: seq<Byte>)
    requires Carries(a, uid, id, f) && Carries(b, uid, id, g)
    requires forall m :: m in a <==> m in b
    ensures f == g
  {
    hide ChunkIndex, ChunkTotal, Get32, ChunkChecksum, Joined;
    if a != [] { assert a[0] in b; }
    if b != [] { assert b[0] in a; }
    forall k | 0 <= k < |a| ensures a[k] == b[k] {
      assert a[k] in b;
      var j :| 0 <= j < |b| && b[j] == a[k];
    }
    assert a == b;
  }
}
