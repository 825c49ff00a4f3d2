/**
 * The two-tier byte cache and the progress-reporting fetcher (src/lib/cache.ts).
 *
 * A memory map sits in front of a durable key-value store (IndexedDB in the
 * browser); the durable tier is consulted only when the host supports it.
 * A fetch is an oracle: the HTTP response, including the answers its stream
 * reader gives, is a parameter.
 */
module ByteCache {
  import opened Wrappers

  type Byte = b: int | 0 <= b < 256
  type Bytes = seq<Byte>

  /** One answer of the body reader: a chunk, with whether the stream is done, or a rejection. */
  datatype Read = Read(done: bool, value: Option<Bytes>) | ReadFailed(error: string)

  /** The `content-length` header: absent, a string that `Number` parses to `n`, or one it parses to NaN. */
  datatype Header = NoHeader | Numeric(n: int) | NotNumeric

  /** An HTTP response; `body` is `None` when the response has no readable stream. */
  datatype Response = Response(ok: bool, statusText: string, contentLength: Header, body: Option<seq<Read>>)

  /** The arguments of one `onProgress(loaded, total)` call. */
  datatype Progress = Progress(loaded: nat, total: Option<int>)

  /** An answer after which the reader is not asked again. */
  predicate Ends(a: Read) {
    a.ReadFailed? || a.done
  }

  /** A reader's answers up to and including the first one that says done or rejects. */
  predicate Finished(answers: seq<Read>) {
    |answers| > 0 && Ends(answers[|answers| - 1]) &&
    forall i :: 0 <= i < |answers| - 1 ==> !Ends(answers[i])
  }

  /** `Number(header ?? 0) || undefined`: zero and NaN both become undefined. */
  function ContentLength(h: Header): (r: Option<int>)
    ensures r.Some? <==> h.Numeric? && h.n != 0
    ensures r.Some? ==> r.value == h.n
  {
    match h
    case Numeric(n) => if n != 0 then Some(n) else None
    case _ => None
  }

  /** The chunks a reader delivers, in order; every present value counts, an empty one included. */
  function Delivered(answers: seq<Read>): seq<Bytes> {
    if answers == [] then []
    else
      var last := answers[|answers| - 1];
      Delivered(answers[..|answers| - 1]) + (if last.Read? && last.value.Some? then [last.value.value] else [])
  }

  /** The rejection that ended the reads, if they ended in one. */
  function ReadError(answers: seq<Read>): Option<string> {
    if answers != [] && answers[|answers| - 1].ReadFailed? then Some(answers[|answers| - 1].error) else None
  }

  /** The in-order concatenation of a sequence of chunks. */
  function Flatten(chunks: seq<Bytes>): Bytes {
    if chunks == [] then [] else Flatten(chunks[..|chunks| - 1]) + chunks[|chunks| - 1]
  }

  /** The `onProgress` calls of the streaming loop: one per delivered chunk, carrying the running total. */
  function ProgressReports(chunks: seq<Bytes>, total: Option<int>): seq<Progress> {
    if chunks == [] then []
    else ProgressReports(chunks[..|chunks| - 1], total) + [Progress(|Flatten(chunks)|, total)]
  }

  /** What `arrayBuffer()` settles to: the whole body, nothing when there is no body, or the reader's rejection. */
  function WholeBody(response: Response): Result<Bytes, string> {
    if response.body.None? then Success([])
    else if ReadError(response.body.value).Some? then Failure(ReadError(response.body.value).value)
    else Success(Flatten(Delivered(response.body.value)))
  }

  /** The value `getCachedBuffer` finds: memory first, then the durable store when it is supported. */
  function Find(memory: map<string, Bytes>, durable: map<string, Bytes>, supported: bool, key: string): (r: Option<Bytes>)
    ensures key in memory ==> r == Some(memory[key])
    ensures key !in memory && supported && key in durable ==> r == Some(durable[key])
    ensures r.None? <==> key !in memory && (!supported || key !in durable)
  {
    if key in memory then Some(memory[key])
    else if supported && key in durable then Some(durable[key])
    else None
  }

  lemma {:induction false} FlattenAppend(a: seq<Bytes>, b: seq<Bytes>)
    ensures Flatten(a + b) == Flatten(a) + Flatten(b)
    decreases |b|
  {
    if b == [] {
      assert a + b == a;
    } else {
      var b' := b[..|b| - 1];
      assert (a + b)[..|a + b| - 1] == a + b';
      FlattenAppend(a, b');
    }
  }

  /** The chunks before position k fill exactly the front of the assembled buffer. */
  lemma FlattenPrefix(chunks: seq<Bytes>, k: nat)
    requires k <= |chunks|
    ensures Flatten(chunks) == Flatten(chunks[..k]) + Flatten(chunks[k..])
  {
    assert chunks == chunks[..k] + chunks[k..];
    FlattenAppend(chunks[..k], chunks[k..]);
  }

  /** Report i carries the total of the first i + 1 chunks, and there is one report per chunk. */
  lemma {:induction false} ReportsAreRunningTotals(chunks: seq<Bytes>, total: Option<int>)
    ensures |ProgressReports(chunks, total)| == |chunks|
    ensures forall i :: 0 <= i < |chunks| ==>
      ProgressReports(chunks, total)[i] == Progress(|Flatten(chunks[..i + 1])|, total)
  {
    if chunks != [] {
      var init := chunks[..|chunks| - 1];
      ReportsAreRunningTotals(init, total);
      forall i | 0 <= i < |chunks|
        ensures ProgressReports(chunks, total)[i] == Progress(|Flatten(chunks[..i + 1])|, total)
      {
        if i < |init| {
          assert init[..i + 1] == chunks[..i + 1];
        } else {
          assert chunks[..i + 1] == chunks;
        }
      }
    }
  }

  /**
   * The running totals never decrease, rise strictly across every non-empty
   * chunk, and the last one is the length of the assembled body.
   */
  lemma ReportsMonotone(chunks: seq<Bytes>, total: Option<int>)
    ensures var r := ProgressReports(chunks, total);
      |r| == |chunks| &&
      (forall i, j :: 0 <= i < j < |chunks| ==> r[i].loaded + |chunks[j]| <= r[j].loaded) &&
      (chunks != [] ==> r[|r| - 1].loaded == |Flatten(chunks)|)
  {
    var r := ProgressReports(chunks, total);
    ReportsAreRunningTotals(chunks, total);
    forall i, j | 0 <= i < j < |chunks| ensures r[i].loaded + |chunks[j]| <= r[j].loaded {
      FlattenPrefix(chunks[..j + 1], i + 1);
      assert chunks[..j + 1][..i + 1] == chunks[..i + 1];
      FlattenPrefix(chunks[..j + 1], j);
      assert chunks[..j + 1][..j] == chunks[..j];
      assert chunks[..j + 1][j..] == [chunks[j]];
      assert Flatten([chunks[j]]) == Flatten([]) + chunks[j];
      FlattenPrefix(chunks[..j], i + 1);
      assert chunks[..j][..i + 1] == chunks[..i + 1];
    }
    if chunks != [] {
      assert chunks[..|chunks|] == chunks;
    }
  }

  /**
   * `buffer.set(chunk, offset)`: copies `chunk` into `buffer` at `offset`,
   * leaving every other position as it was.
   */
  method CopyInto(buffer: array<Byte>, chunk: Bytes, offset: nat)
    requires offset + |chunk| <= buffer.Length
    modifies buffer
    ensures buffer[..offset] == old(buffer[..offset])
    ensures buffer[offset..offset + |chunk|] == chunk
    ensures buffer[offset + |chunk|..] == old(buffer[offset + |chunk|..])
  {
    var j := 0;
    while j < |chunk|
      invariant 0 <= j <= |chunk|
      invariant buffer[..offset] == old(buffer[..offset])
      invariant buffer[offset..offset + j] == chunk[..j]
      invariant buffer[offset + |chunk|..] == old(buffer[offset + |chunk|..])
    {
      buffer[offset + j] := chunk[j];
      j := j + 1;
    }
  }

  /**
   * The assembly loop of the streaming path: a buffer of `received` bytes
   * into which each chunk is copied at an advancing offset.
   */
  method Assemble(chunks: seq<Bytes>, received: nat) returns (buffer: array<Byte>)
    requires received == |Flatten(chunks)|
    ensures buffer.Length == received
    ensures buffer[..] == Flatten(chunks)
  {
    buffer := new Byte[received];
    var offset := 0;
    var k := 0;
    while k < |chunks|
      invariant 0 <= k <= |chunks|
      invariant offset == |Flatten(chunks[..k])| <= received
      invariant buffer[..offset] == Flatten(chunks[..k])
    {
      FlattenPrefix(chunks, k + 1);
      assert chunks[..k + 1][..k] == chunks[..k];
      CopyInto(buffer, chunks[k], offset);
      assert buffer[..offset + |chunks[k]|] == buffer[..offset] + buffer[offset..offset + |chunks[k]|];
      offset := offset + |chunks[k]|;
      k := k + 1;
    }
    assert chunks[..k] == chunks;
    assert buffer[..] == buffer[..offset];
  }

  /** One more answer adds its chunk, if it carries one, to what was delivered. */
  lemma DeliveredStep(answers: seq<Read>, i: nat)
    requires i < |answers|
    ensures Delivered(answers[..i + 1]) ==
      Delivered(answers[..i]) + (if answers[i].Read? && answers[i].value.Some? then [answers[i].value.value] else [])
  {
    assert answers[..i + 1][..i] == answers[..i];
  }

  /** One more chunk extends the bytes by the chunk and the reports by the new running total. */
  lemma ChunkStep(chunks: seq<Bytes>, chunk: Bytes, total: Option<int>)
    ensures Flatten(chunks + [chunk]) == Flatten(chunks) + chunk
    ensures ProgressReports(chunks + [chunk], total) ==
      ProgressReports(chunks, total) + [Progress(|Flatten(chunks)| + |chunk|, total)]
  {
    assert (chunks + [chunk])[..|chunks|] == chunks;
  }

  /**
   * The `while (!done)` loop of the streaming path: it keeps every chunk the
   * reader delivers, adds its length to `received` and reports the running
   * total; a rejected read ends it with that error.
   */
  method Drain(answers: seq<Read>, total: Option<int>)
    returns (chunks: seq<Bytes>, received: nat, reports: seq<Progress>, failure: Option<string>)
    requires Finished(answers)
    ensures chunks == Delivered(answers)
    ensures received == |Flatten(chunks)|
    ensures reports == ProgressReports(chunks, total)
    ensures failure == ReadError(answers)
  {
    var i := 0;
    var done := false;
    chunks, received, reports, failure := [], 0, [], None;
    while !done
      invariant 0 <= i <= |answers|
      invariant done ==> i == |answers|
      invariant !done ==> i < |answers| && failure.None?
      invariant chunks == Delivered(answers[..i])
      invariant received == |Flatten(chunks)|
      invariant reports == ProgressReports(chunks, total)
      invariant done ==> failure == ReadError(answers)
      decreases |answers| - i, if done then 0 else 1
    {
      var next := answers[i];
      DeliveredStep(answers, i);
      i := i + 1;
      if next.ReadFailed? {
        failure := Some(next.error);
        done := true;
      } else {
        done := next.done;
        if next.value.Some? {
          ChunkStep(chunks, next.value.value, total);
          chunks := chunks + [next.value.value];
          received := received + |next.value.value|;
          reports := reports + [Progress(received, total)];
        }
      }
    }
    assert answers[..i] == answers;
  }

  /** The module-level cache: `memoryCache`, and the durable store behind it. */
  class Cache {
    var memory: map<string, Bytes>
    var durable: map<string, Bytes>
    /** Whether the host has a durable store at all (`typeof indexedDB !== 'undefined'`). */
    const durableSupported: bool

    /** A fresh page: an empty memory tier over whatever the durable store kept. */
    constructor (durableSupported: bool, durable: map<string, Bytes>)
      ensures this.durableSupported == durableSupported
      ensures memory == map[] && this.durable == durable
    {
      this.durableSupported := durableSupported;
      this.durable := durable;
      memory := map[];
    }

    function Lookup(key: string): Option<Bytes>
      reads this
    {
      Find(memory, durable, durableSupported, key)
    }

    /** `getCachedBuffer`: a durable hit is copied into memory (write-through on read). */
    method Get(key: string) returns (r: Option<Bytes>)
      modifies this`memory
      ensures r == old(Lookup(key))
      ensures memory == if key !in old(memory) && r.Some? then old(memory)[key := r.value] else old(memory)
      ensures Lookup(key) == r
    {
      if key in memory {
        return Some(memory[key]);
      }
      if durableSupported && key in durable {
        var fromDurable := durable[key];
        memory := memory[key := fromDurable];
        return Some(fromDurable);
      }
      return None;
    }

    /** `setCachedBuffer`: always writes memory, and the durable store when it is supported. */
    method Set(key: string, value: Bytes)
      modifies this`memory, this`durable
      ensures memory == old(memory)[key := value]
      ensures durable == if durableSupported then old(durable)[key := value] else old(durable)
      ensures Lookup(key) == Some(value)
    {
      memory := memory[key := value];
      if durableSupported {
        durable := durable[key := value];
      }
    }

    /**
     * `fetchWithProgress`. `response` is what `fetch(url)` settled to (a
     * rejection carries its message); `withProgress` says whether an
     * `onProgress` callback was passed; `reports` are the calls it received,
     * `requested` whether the network was asked at all.
     */
    method FetchWithProgress(url: string, response: Result<Response, string>, withProgress: bool)
      returns (result: Result<Bytes, string>, requested: bool, reports: seq<Progress>)
      requires response.Success? && response.value.body.Some? ==> Finished(response.value.body.value)
      modifies this`memory, this`durable
      ensures var hit := old(Lookup(url));
        hit.Some? ==> result == Success(hit.value) && !requested && reports == [] &&
                      memory == old(memory)[url := hit.value] && durable == old(durable)
      ensures old(Lookup(url)).None? ==> requested
      ensures old(Lookup(url)).None? && response.Failure? ==>
        result == Failure(response.error) && reports == [] && memory == old(memory) && durable == old(durable)
      ensures old(Lookup(url)).None? && response.Success? && !response.value.ok ==>
        result == Failure("Failed to fetch " + url + ": " + response.value.statusText) &&
        reports == [] && memory == old(memory) && durable == old(durable)
      ensures old(Lookup(url)).None? && response.Success? && response.value.ok ==>
        var r := response.value;
        var total := ContentLength(r.contentLength);
        result == WholeBody(r) &&
        (result.Success? ==>
          memory == old(memory)[url := result.value] &&
          durable == (if durableSupported then old(durable)[url := result.value] else old(durable))) &&
        (result.Failure? ==> memory == old(memory) && durable == old(durable)) &&
        reports == if r.body.Some? && withProgress then ProgressReports(Delivered(r.body.value), total)
                   else if withProgress && result.Success? then [Progress(|result.value|, total)]
                   else []
    {
      var cached := Get(url);
      if cached.Some? {
        assert url in old(memory) ==> old(memory)[url := cached.value] == old(memory);
        return Success(cached.value), false, [];
      }
      requested := true;
      if response.Failure? {
        return Failure(response.error), requested, [];
      }
      var r := response.value;
      if !r.ok {
        return Failure("Failed to fetch " + url + ": " + r.statusText), requested, [];
      }
      var total := ContentLength(r.contentLength);
      if r.body.None? || !withProgress {
        var whole := WholeBody(r);
        if whole.Failure? {
          return whole, requested, [];
        }
        Set(url, whole.value);
        reports := if withProgress then [Progress(|whole.value|, total)] else [];
        return whole, requested, reports;
      }
      var chunks, received, failure;
      chunks, received, reports, failure := Drain(r.body.value, total);
      if failure.Some? {
        return Failure(failure.value), requested, reports;
      }
      var buffer := Assemble(chunks, received);
      Set(url, buffer[..]);
      result := Success(buffer[..]);
    }
  }

  /** `setCachedBuffer` then `getCachedBuffer` gives the value back, also after a reload empties memory. */
  lemma SetThenFind(memory: map<string, Bytes>, durable: map<string, Bytes>, supported: bool, key: string, value: Bytes)
    ensures Find(memory[key := value], if supported then durable[key := value] else durable, supported, key) == Some(value)
    ensures supported ==> Find(map[], durable[key := value], supported, key) == Some(value)
  {
  }
}
