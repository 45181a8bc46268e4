/** The body buffer of an HTTP response: a vector grown in steps with a write position in it
    (main/core/util/http_response.cc). */
module HttpBody {

  newtype byte = x: int | 0 <= x < 0x100

  const DEFAULT_DATA_SIZE: nat := 2048

  /** The vector and current_size_. */
  datatype Buffer = Buffer(data: seq<byte>, used: nat) {
    predicate Valid() {
      used <= |data|
    }
  }

  function Zeros(n: nat): seq<byte> {
    seq(n, _ => 0)
  }

  function Max(a: nat, b: nat): nat {
    if a < b then b else a
  }

  /** Room for the chunk and at least one byte more. */
  function Grown(b: Buffer, size: nat): seq<byte> {
    if b.used + size >= |b.data| then
      b.data + Zeros(if size >= DEFAULT_DATA_SIZE then size + 1 else DEFAULT_DATA_SIZE)
    else b.data
  }

  function Append(b: Buffer, chunk: seq<byte>): (r: Buffer)
    requires b.Valid()
    ensures r.Valid() && r.used == b.used + |chunk|
    ensures r.data[..r.used] == b.data[..b.used] + chunk
    ensures |r.data| - r.used >= 1
  {
    var data := Grown(b, |chunk|);
    Buffer(data[..b.used] + chunk + data[b.used + |chunk|..], b.used + |chunk|)
  }

  datatype Op =
    | OpAppend(chunk: seq<byte>)
    | OpRelease(into: seq<byte>)
    | OpSet(data: seq<byte>)

  /** A release swaps the vectors, and cuts the one handed out to what was written. */
  function Released(b: Buffer): seq<byte>
    requires b.Valid()
  {
    b.data[..b.used]
  }

  function Apply(b: Buffer, op: Op): (r: Buffer)
    requires b.Valid()
    ensures r.Valid()
  {
    match op
    case OpAppend(chunk) => Append(b, chunk)
    case OpRelease(into) => Buffer(into, 0)
    case OpSet(data) => Buffer(data, 0)
  }

  /** A fresh object after a run of calls. */
  function After(ops: seq<Op>): (b: Buffer)
    ensures b.Valid()
  {
    if ops == [] then Buffer([], 0) else Apply(After(ops[..|ops| - 1]), ops[|ops| - 1])
  }

  /** The chunks appended since the last release or set, joined. */
  function Joined(ops: seq<Op>): seq<byte> {
    if ops == [] || !ops[|ops| - 1].OpAppend? then []
    else Joined(ops[..|ops| - 1]) + ops[|ops| - 1].chunk
  }

  /** On every run, whatever vectors releases were given, a release hands out exactly the concatenation of
      the chunks appended since the last release or set. */
  lemma {:induction false} ReleaseIsConcatenation(ops: seq<Op>)
    ensures Released(After(ops)) == Joined(ops)
  {
    if ops != [] {
      ReleaseIsConcatenation(ops[..|ops| - 1]);
    }
  }

  // ---------- Bytes past the end ----------

  /** No set, and every release into an empty vector. */
  predicate Clean(ops: seq<Op>) {
    forall i :: 0 <= i < |ops| ==> !ops[i].OpSet? && (ops[i].OpRelease? ==> ops[i].into == [])
  }

  /** The longest chunk of a run. */
  function Longest(ops: seq<Op>): nat {
    if ops == [] then 0
    else
      var op := ops[|ops| - 1];
      Max(Longest(ops[..|ops| - 1]), if op.OpAppend? then |op.chunk| else 0)
  }

  ghost predicate ZeroTail(b: Buffer) {
    forall i :: b.used <= i < |b.data| ==> b.data[i] == 0
  }

  lemma AppendTail(b: Buffer, chunk: seq<byte>)
    requires b.Valid() && ZeroTail(b)
    ensures ZeroTail(Append(b, chunk))
  {
    var r := Append(b, chunk);
    var data := Grown(b, |chunk|);
    forall i | r.used <= i < |r.data| ensures r.data[i] == 0 {
      assert r.data[i] == data[i];
    }
  }

  lemma AppendSlack(b: Buffer, chunk: seq<byte>)
    requires b.Valid()
    ensures var r := Append(b, chunk);
            |r.data| - r.used <= Max(|b.data| - b.used, Max(DEFAULT_DATA_SIZE, |chunk| + 1))
  {
  }

  /** From a fresh object the written bytes are followed by zeros only, at least one once anything has been
      appended (so the raw pointer is a terminated string), and by no more than the growth step:
      2048, or one byte more than the longest chunk. */
  lemma {:induction false} CleanRunTail(ops: seq<Op>)
    requires Clean(ops)
    ensures var b := After(ops);
            && b.data[..b.used] == Joined(ops)
            && ZeroTail(b)
            && |b.data| - b.used <= Max(DEFAULT_DATA_SIZE, Longest(ops) + 1)
            && (ops != [] && ops[|ops| - 1].OpAppend? ==> |b.data| - b.used >= 1)
  {
    hide Append, Joined;
    ReleaseIsConcatenation(ops);
    if ops != [] {
      var before, op := ops[..|ops| - 1], ops[|ops| - 1];
      assert Clean(before);
      CleanRunTail(before);
      if op.OpAppend? {
        AppendTail(After(before), op.chunk);
        AppendSlack(After(before), op.chunk);
      }
    }
  }

  /** The vector the buffer was last given: by a set, by a release, or the empty one it began with. */
  function Given(ops: seq<Op>): seq<byte> {
    if ops == [] then []
    else match ops[|ops| - 1]
      case OpAppend(_) => Given(ops[..|ops| - 1])
      case OpRelease(into) => into
      case OpSet(data) => data
  }

  /** Past the written bytes stands what the vector was given with, and zeros beyond that. */
  ghost predicate TailOf(b: Buffer, given: seq<byte>) {
    && |given| <= |b.data|
    && forall i :: b.used <= i < |b.data| ==> b.data[i] == if i < |given| then given[i] else 0
  }

  lemma AppendTailOf(b: Buffer, given: seq<byte>, chunk: seq<byte>)
    requires b.Valid() && TailOf(b, given)
    ensures TailOf(Append(b, chunk), given)
  {
    var r, grown := Append(b, chunk), Grown(b, |chunk|);
    forall i | r.used <= i < |r.data| ensures r.data[i] == if i < |given| then given[i] else 0 {
      assert r.data[i] == grown[i];
    }
  }

  /** Over every run, each byte past the written ones is that of the vector last given at the same place, and 0
      beyond its end; so only zeros follow the written bytes iff that vector has zeros there. */
  lemma {:induction false} TailIsGiven(ops: seq<Op>)
    ensures TailOf(After(ops), Given(ops))
    ensures var b := After(ops);
            ZeroTail(b) <==> forall i :: b.used <= i < |Given(ops)| ==> Given(ops)[i] == 0
  {
    hide Append;
    if ops != [] && ops[|ops| - 1].OpAppend? {
      var before := ops[..|ops| - 1];
      TailIsGiven(before);
      AppendTailOf(After(before), Given(before), ops[|ops| - 1].chunk);
    }
    var b := After(ops);
    assert forall i :: b.used <= i < |Given(ops)| ==> b.data[i] == Given(ops)[i];
  }

  /** The data set are never handed out: a release right after a set hands out nothing, whatever was set. */
  lemma SetIsNotReleased(ops: seq<Op>, data: seq<byte>)
    ensures Released(After(ops + [OpSet(data)])) == []
    ensures Released(After(ops + [OpSet(data)])) == data <==> data == []
  {
    assert (ops + [OpSet(data)])[..|ops|] == ops;
  }

  /** The vector keeps its length while a chunk fits with a byte to spare, and otherwise grows by 2048, or by one byte
      more than the chunk if that is more. */
  lemma GrowsByChunk(b: Buffer, chunk: seq<byte>)
    requires b.Valid()
    ensures |Append(b, chunk).data| ==
            if b.used + |chunk| < |b.data| then |b.data| else |b.data| + Max(2048, |chunk| + 1)
  {
  }

  // ---------- The object ----------

  class HttpResponse {
    var responseData: seq<byte>
    var currentSize: nat
    var hasResponse: bool

    ghost function Abs(): Buffer
      reads this
    {
      Buffer(responseData, currentSize)
    }

    ghost predicate Valid()
      reads this
    {
      Abs().Valid()
    }

    constructor ()
      ensures Valid() && Abs() == Buffer([], 0) && !hasResponse
    {
      responseData, currentSize, hasResponse := [], 0, false;
    }

    method SetResponseData(data: seq<byte>)
      modifies this
      ensures Valid() && Abs() == Buffer(data, 0) && hasResponse
    {
      hasResponse := true;
      responseData := data;
      currentSize := 0;
    }

    method AppendResponseData(chunk: seq<byte>)
      requires Valid()
      modifies this
      ensures Valid() && Abs() == Append(old(Abs()), chunk) && hasResponse
    {
      hasResponse := true;
      if currentSize + |chunk| >= |responseData| {
        var newAddSize := DEFAULT_DATA_SIZE;
        if |chunk| >= newAddSize {
          newAddSize := |chunk| + 1;
        }
        responseData := responseData + Zeros(newAddSize);
      }
      responseData := responseData[..currentSize] + chunk + responseData[currentSize + |chunk|..];
      currentSize := currentSize + |chunk|;
    }

    /** The caller's vector comes in as `into` and leaves as `out`. */
    method ReleaseReponseData(into: seq<byte>) returns (out: seq<byte>)
      requires Valid()
      modifies this
      ensures Valid() && Abs() == Buffer(into, 0) && !hasResponse
      ensures out == Released(old(Abs()))
    {
      hasResponse := false;
      out := responseData;
      responseData := into;
      out := out[..currentSize];
      currentSize := 0;
    }
  }
}
