/** Downloading an upload in chunks (internal/velociraptor/grpcclient_uploads.go:124-183) and the
handler's truncation flag (internal/mcpserver/tools_flows.go:663-694). */
module Download {
  import opened Text

  const CHUNK := 1048576
  const DEFAULT_MAX := 10485760

  /** The answer of VFSGetBuffer to (offset, length); None is a failed call. */
  type Server<!Byte> = (nat, nat) -> Option<seq<Byte>>

  /** The server may fail or answer short, but what it sends is the file's content from the
      offset on, at most as long as asked. */
  ghost predicate Honest<Byte>(serve: Server<Byte>, file: seq<Byte>) {
    forall o: nat, l: nat :: serve(o, l).Some? ==> HonestAnswer(serve(o, l).value, file, o, l)
  }

  predicate HonestAnswer<Byte(==)>(data: seq<Byte>, file: seq<Byte>, o: nat, l: nat) {
    |data| <= l && (data == [] || (o + |data| <= |file| && data == file[o..o + |data|]))
  }

  /** Every answer is there and as long as the file allows. */
  ghost predicate FullReads<Byte>(serve: Server<Byte>, file: seq<Byte>) {
    forall o: nat, l: nat :: serve(o, l).Some? && serve(o, l).value == Slice(file, o, l)
  }

  function Slice<Byte>(file: seq<Byte>, o: nat, l: nat): (s: seq<Byte>) {
    if o >= |file| then [] else if o + l <= |file| then file[o..o + l] else file[o..]
  }

  /** `n` bytes respect the configured limit, or 10 MiB when there is none, and a known recorded size. */
  predicate Within(n: int, recorded: int, maxBytes: int) {
    n <= (if maxBytes > 0 then maxBytes else 10485760) && (recorded > 0 ==> n <= recorded)
  }

  /** `data` is the longest prefix of the file within the limit and the recorded size. */
  ghost predicate Longest<Byte>(data: seq<Byte>, file: seq<Byte>, recorded: int, maxBytes: int) {
    && data <= file && Within(|data|, recorded, maxBytes)
    && (data == file || !Within(|data| + 1, recorded, maxBytes))
  }

  lemma FullIsHonest<Byte>(serve: Server<Byte>, file: seq<Byte>)
    requires FullReads(serve, file)
    ensures Honest(serve, file)
  {
  }

  lemma Extends<Byte>(buf: seq<Byte>, data: seq<Byte>, file: seq<Byte>, l: nat)
    requires buf <= file && HonestAnswer(data, file, |buf|, l)
    ensures buf + data <= file
  {
  }

  /** A full read that comes out short has reached the end of the file. */
  lemma ShortEnds<Byte>(buf: seq<Byte>, data: seq<Byte>, file: seq<Byte>, l: nat)
    requires buf <= file && data == Slice(file, |buf|, l) && |data| < l
    ensures buf + data == file
  {
  }

  /** `DownloadFlowUpload` after the upload's row is found; `recorded` is the size in that row. It
      ends for every server. From an honest one the result is a prefix of the file within the
      limit and the recorded size; with full reads it is the longest one: the whole file, or as many
      bytes as the limit and the recorded size allow. */
  method DownloadFlowUpload<Byte(==)>(serve: Server<Byte>, recorded: int, maxBytes: int, ghost file: seq<Byte>)
    returns (r: Option<seq<Byte>>)
    ensures Honest(serve, file) && r.Some? ==> r.value <= file && Within(|r.value|, recorded, maxBytes)
    ensures FullReads(serve, file) ==> r.Some? && Longest(r.value, file, recorded, maxBytes)
    ensures r.None? ==> exists o: nat, l: nat :: serve(o, l).None?
  {
    var limit := maxBytes;
    if limit <= 0 { limit := DEFAULT_MAX; }
    var toRead := limit;
    if recorded > 0 && recorded < toRead { toRead := recorded; }
    var buf: seq<Byte> := [];
    var offset: nat := 0;
    if FullReads(serve, file) { FullIsHonest(serve, file); }
    while |buf| < toRead
      invariant offset == |buf|
      invariant Honest(serve, file) ==> |buf| <= toRead && buf <= file
      decreases toRead - |buf|
    {
      var length := CHUNK;
      if length > toRead - |buf| { length := toRead - |buf|; }
      var resp := serve(offset, length);
      if resp.None? { return None; }
      var data := resp.value;
      if Honest(serve, file) { Extends(buf, data, file, length); }
      if FullReads(serve, file) && |data| < length { ShortEnds(buf, data, file, length); }
      if |data| == 0 {
        assert buf + data == buf;
        break;
      }
      buf := buf + data;
      offset := offset + |data|;
      if |data| < length { break; }
    }
    return Some(buf);
  }

  /** The handler's flag. */
  predicate Flagged(maxBytes: int, length: nat) {
    maxBytes > 0 && length >= maxBytes
  }

  /** With full reads and a configured limit, a result that is not flagged is the whole file exactly
      when the recorded size is unknown, or at least the limit, or at least the file's size. Without
      a configured limit nothing is ever flagged, so the file has to fit. */
  lemma UnflaggedIsWhole<Byte>(data: seq<Byte>, file: seq<Byte>, recorded: int, maxBytes: int)
    requires Longest(data, file, recorded, maxBytes)
    ensures (!Flagged(maxBytes, |data|) ==> data == file) <==>
              if maxBytes > 0 then recorded <= 0 || recorded >= maxBytes || recorded >= |file|
              else |file| <= 10485760 && (recorded <= 0 || recorded >= |file|)
  {
  }

  /** So it holds for every configured limit when the recorded size is right or unknown. */
  lemma RightSizeIsEnough<Byte>(data: seq<Byte>, file: seq<Byte>, recorded: int, maxBytes: int)
    requires Longest(data, file, recorded, maxBytes) && maxBytes > 0 && (recorded <= 0 || recorded == |file|)
    ensures !Flagged(maxBytes, |data|) ==> data == file
  {
  }

  /** A recorded size that is too small cuts the file without the flag: one byte recorded, two there. */
  lemma StaleSizeCuts(a: int, b: int)
    ensures Longest([a], [a, b], 1, 10) && !Flagged(10, |[a]|) && [a] != [a, b]
  {
  }
}
