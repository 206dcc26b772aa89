/** The echo program: a client that sends, reads back and judges, and a server that returns what
    it reads. Reads and writes move any number of bytes at a time. */
module Echo {
  import opened Framing

  datatype Report = Verdict(size: bool, content: bool) | ReadError

  /** What the client's buffer shows at position i after it has read the stream. */
  function Shown(stream: seq<byte>, i: nat): byte { if i < |stream| then stream[i] else 0 }

  /** What the content check compares. */
  ghost predicate ContentMatches(data: seq<byte>, stream: seq<byte>) {
    forall i :: 0 <= i < |data| ==> data[i] == Shown(stream, i)
  }

  /** The client's reading loop and verdict. The buffer is one byte longer than the data. The reads
      in faults fail. */
  method RunClient(data: seq<byte>, stream: seq<byte>, faults: set<nat>) returns (r: Report, count: nat)
    // of the reads made only the last can have failed, and there is a verdict iff it did not
    ensures count >= 1 && (r.ReadError? <==> count - 1 in faults)
    ensures forall i: nat :: i < count - 1 ==> i !in faults
    // both checks pass if and only if the stream is exactly the data
    ensures r.Verdict? ==> (r.size && r.content <==> stream == data)
    // the size check alone tells the lengths apart, in both directions
    ensures r.Verdict? ==> (r.size <==> |stream| == |data|)
    // the content check alone does not: bytes that never came show as zero
    ensures r.Verdict? ==> (r.content <==> ContentMatches(data, stream))
  {
    var buf := new byte[|data| + 1](_ => 0);
    var size := 0;
    count := 0;
    while size < buf.Length
      invariant forall i: nat :: i < count ==> i !in faults
      invariant size > 0 ==> count > 0
      invariant 0 <= size <= buf.Length && size <= |stream|
      invariant forall i :: 0 <= i < size ==> buf[i] == stream[i]
      invariant forall i :: size <= i < buf.Length ==> buf[i] == 0
      decreases buf.Length - size
    {
      count := count + 1;
      if count - 1 in faults { return ReadError, count; }
      if size == |stream| { break; }                    // read 0 bytes: the end
      var n: nat :| 1 <= n <= buf.Length - size && n <= |stream| - size;
      forall i | 0 <= i < n { buf[size + i] := stream[size + i]; }
      size := size + n;
    }
    assert size == |stream| || size == |data| + 1;
    forall i | 0 <= i < |data| ensures buf[..|data|][i] == Shown(stream, i) {}
    var content := data == buf[..|data|];
    r := Verdict(|data| == size, content);
    if content {
      forall i | 0 <= i < |data| ensures data[i] == Shown(stream, i) { assert data[i] == buf[..|data|][i]; }
    }
  }

  /** What the content check says of any answer: one as long as the data or longer passes if and
      only if it starts with the data; a shorter one if and only if it is a prefix of the data and
      every byte that is missing is zero. */
  lemma ContentCheckIff(data: seq<byte>, stream: seq<byte>)
    ensures |data| <= |stream| ==> (ContentMatches(data, stream) <==> data <= stream)
    ensures |stream| < |data|
            ==> (ContentMatches(data, stream)
                 <==> stream <= data && forall i :: |stream| <= i < |data| ==> data[i] == 0)
  {
    if ContentMatches(data, stream) {
      forall i | 0 <= i < |data| && i < |stream| ensures data[i] == stream[i] {
        assert data[i] == Shown(stream, i);
      }
      forall i | |stream| <= i < |data| ensures data[i] == 0 { assert data[i] == Shown(stream, i); }
    } else {
      var i :| 0 <= i < |data| && data[i] != Shown(stream, i);
      assert i < |stream| ==> data[i] != stream[i];
    }
  }

  /** So with data whose last byte is not zero a pass means that all of the data arrived. */
  lemma ContentMeansAllArrived(data: seq<byte>, stream: seq<byte>)
    requires data != [] && data[|data| - 1] != 0
    ensures ContentMatches(data, stream) <==> data <= stream
  {
    ContentCheckIff(data, stream);
  }

  /** "Hello world", which is what the client sends. */
  const GREETING: seq<byte> := [72, 101, 108, 108, 111, 32, 119, 111, 114, 108, 100]

  /** For the greeting the content check passes if and only if the answer starts with it; the size
      check then tells whether anything follows. */
  lemma GreetingCheck(stream: seq<byte>)
    ensures ContentMatches(GREETING, stream) <==> GREETING <= stream
  {
    ContentMeansAllArrived(GREETING, stream);
  }

  datatype ServerExit = Closed | Failed

  /** The server's loop for one connection, with its 1024-byte buffer. In the rounds in faults the
      read fails, in those in cuts the write. */
  method Serve(input: seq<byte>, faults: set<nat>, cuts: set<nat>)
    returns (exit: ServerExit, output: seq<byte>, rounds: nat)
    ensures output <= input
    // it gives up only in a round in which something fails, at the first such read or write
    ensures rounds >= 1 && (exit.Failed? ==> rounds - 1 in faults || rounds - 1 in cuts)
    ensures exit.Closed? ==> rounds - 1 !in faults
    ensures forall i: nat :: i < rounds - 1 ==> i !in faults && i !in cuts
    ensures exit.Closed? ==> output == input
  {
    var buf := new byte[1024](_ => 0);
    var pos := 0;
    output, exit, rounds := [], Failed, 0;
    while true
      invariant exit.Failed? && forall i: nat :: i < rounds ==> i !in faults && i !in cuts
      invariant 0 <= pos <= |input| && output == input[..pos] && buf.Length == 1024
      decreases |input| - pos
    {
      rounds := rounds + 1;
      if rounds - 1 in faults { break; }                // a read error
      if pos == |input| {                               // read 0 bytes: the end
        exit := Closed;
        break;
      }
      var n: nat :| 1 <= n <= buf.Length && n <= |input| - pos;
      forall i | 0 <= i < n { buf[i] := input[pos + i]; }
      var ok, done := SendBack(buf, n, rounds - 1 !in cuts);
      assert buf[..done] == input[pos..pos + done];
      assert input[..pos + done] == input[..pos] + input[pos..pos + done];
      output, pos := output + buf[..done], pos + done;
      if !ok { break; }                                 // a write error
    }
  }

  /** write_all of the first n bytes of the buffer: done of them went out, all of them unless the
      connection fails on the way. */
  method SendBack(buf: array<byte>, n: nat, works: bool) returns (ok: bool, done: nat)
    requires n <= buf.Length
    ensures ok <==> works || n == 0
    ensures done <= n && (ok <==> done == n)
  {
    done := 0;
    while done < n
      invariant 0 <= done <= n && (done == n ==> works || n == 0)
    {
      var k: nat :| 1 <= k <= n - done;
      if !works && k == n - done { return false, done; }
      done := done + k;
    }
    ok := true;
  }

  /** Client and server over a link that may cut either direction short but alters nothing: when
      all ends in orderly ends of file the verdict is PASS on both counts if and only if neither
      direction lost anything. */
  method EchoOverLink(data: seq<byte>, there: nat, back: nat, faults: set<nat>, cuts: set<nat>, lost: set<nat>)
    returns (exit: ServerExit, r: Report)
    requires there <= |data|
    // without errors there is always a verdict
    ensures faults == {} && cuts == {} ==> exit.Closed?
    ensures lost == {} ==> r.Verdict?
    ensures exit.Closed? && r.Verdict? ==> (r.size && r.content <==> there == |data| && back >= there)
  {
    var arrived := data[..there];
    var output, rounds, count;
    exit, output, rounds := Serve(arrived, faults, cuts);
    var answer := if back <= |output| then output[..back] else output;
    r, count := RunClient(data, answer, lost);
    if exit.Closed? {
      assert |answer| == if back <= there then back else there;
      if there == |data| && back >= there { assert answer == data; }
    }
  }
}
