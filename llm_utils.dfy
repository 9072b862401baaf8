/**
 * The week-3 language-model utilities: the token count and its fallback
 * estimate of one token per four characters, splitting a text into chunks
 * (by characters when no tokenizer is available or it fails, otherwise by
 * groups of tokens), and the retry loop around the chat and embedding calls.
 * The tokenizer and the remote calls are parameters.
 */
module LlmUtils {
  import opened Wrappers

  type Token = int

  /**
   * The tokenizer, when one could be loaded. Each direction returns `None`
   * where the library would raise.
   */
  datatype Encoder = Encoder(encode: string -> Option<seq<Token>>, decode: seq<Token> -> Option<string>)

  /** The error `range()` raises for a step of zero. */
  datatype PyError = ValueError

  function Min(a: int, b: int): int
  {
    if a <= b then a else b
  }

  /** `len(text) // 4`: the estimate of one token per four characters, rounded down. */
  function EstimateTokens(text: string): (n: nat)
    ensures 4 * n <= |text| < 4 * n + 4
  {
    |text| / 4
  }

  /** `count_tokens(text)`: the tokenizer's count, or the estimate without a tokenizer or when it fails. */
  function CountTokens(enc: Option<Encoder>, text: string): (n: nat)
    ensures enc.None? ==> 4 * n <= |text| < 4 * n + 4
    ensures enc.Some? && enc.value.encode(text).Some? ==> n == |enc.value.encode(text).value|
    ensures enc.Some? && enc.value.encode(text).None? ==> 4 * n <= |text| < 4 * n + 4
  {
    match enc
    case None => EstimateTokens(text)
    case Some(e) =>
      match e.encode(text)
      case Some(tokens) => |tokens|
      case None => EstimateTokens(text)
  }

  /** The pieces of `s` together, in order. */
  function Flatten<T>(pieces: seq<seq<T>>): seq<T>
  {
    if pieces == [] then [] else pieces[0] + Flatten(pieces[1..])
  }

  /** The number of pieces of size `k` needed to hold `n` elements: `n / k` rounded up. */
  function CeilDiv(n: nat, k: nat): nat
    requires k > 0
  {
    (n + k - 1) / k
  }

  /** `[s[i:i + k] for i in range(0, len(s), k)]` for a positive `k`. */
  function Slices<T>(s: seq<T>, k: nat): (r: seq<seq<T>>)
    requires k > 0
    ensures forall i :: 0 <= i < |r| ==> 0 < |r[i]| <= k
    ensures s == [] <==> r == []
    decreases |s|
  {
    if s == [] then []
    else if |s| <= k then [s]
    else [s[..k]] + Slices(s[k..], k)
  }

  /** The first piece is the first `k` elements, or all of them. */
  lemma SlicesUnfold<T>(s: seq<T>, k: nat)
    requires k > 0 && s != []
    ensures Slices(s, k) == [s[..Min(k, |s|)]] + Slices(s[Min(k, |s|)..], k)
  {
    if |s| <= k {
      assert s[..|s|] == s;
      assert s[|s|..] == [];
    }
  }

  /** The pieces put back together are the original sequence. */
  lemma {:induction false} SlicesFlatten<T>(s: seq<T>, k: nat)
    requires k > 0
    ensures Flatten(Slices(s, k)) == s
    decreases |s|
  {
    if s != [] {
      SlicesUnfold(s, k);
      SlicesFlatten(s[Min(k, |s|)..], k);
      var r := Slices(s, k);
      assert r[0] == s[..Min(k, |s|)];
      assert r[1..] == Slices(s[Min(k, |s|)..], k);
      assert s == s[..Min(k, |s|)] + s[Min(k, |s|)..];
    }
  }

  /** Every piece but the last is full. */
  lemma {:induction false} SlicesFull<T>(s: seq<T>, k: nat)
    requires k > 0
    ensures forall i :: 0 <= i < |Slices(s, k)| - 1 ==> |Slices(s, k)[i]| == k
    decreases |s|
  {
    if |s| > k {
      SlicesFull(s[k..], k);
      var r := Slices(s, k);
      assert r[1..] == Slices(s[k..], k);
      forall i | 0 <= i < |r| - 1 ensures |r[i]| == k {
        if i > 0 { assert r[i] == Slices(s[k..], k)[i - 1]; }
      }
    }
  }

  /** Euclidean division has one quotient: the one whose remainder lies in `[0, k)`. */
  lemma DivUnique(x: int, k: int, q: int, rm: int)
    requires k > 0 && x == q * k + rm && 0 <= rm < k
    ensures x / k == q
  {
    var q2, r2 := x / k, x % k;
    assert x == q2 * k + r2 && 0 <= r2 < k;
    var d := q - q2;
    assert d * k == q * k - q2 * k;
    assert d * k == r2 - rm;
  }

  lemma CeilDivStep(n: nat, k: nat)
    requires k > 0 && n > k
    ensures CeilDiv(n, k) == CeilDiv(n - k, k) + 1
  {
    var m := n - 1;
    var q, rm := m / k, m % k;
    assert m == q * k + rm && 0 <= rm < k;
    assert n + k - 1 == (q + 1) * k + rm;
    DivUnique(n + k - 1, k, q + 1, rm);
    DivUnique(n - k + k - 1, k, q, rm);
  }

  lemma CeilDivSmall(n: nat, k: nat)
    requires k > 0 && 0 < n <= k
    ensures CeilDiv(n, k) == 1
  {
  }

  /** There are `ceil(len(s) / k)` pieces; none at all for an empty sequence. */
  lemma {:induction false} SlicesCount<T>(s: seq<T>, k: nat)
    requires k > 0
    ensures |Slices(s, k)| == CeilDiv(|s|, k)
    decreases |s|
  {
    if s == [] {
      assert CeilDiv(0, k) == (k - 1) / k == 0;
    } else if |s| <= k {
      CeilDivSmall(|s|, k);
    } else {
      SlicesCount(s[k..], k);
      CeilDivStep(|s|, k);
    }
  }

  /** Piece `j` is `s[j*k : j*k + k]`, the element the comprehension produces for `i = j*k`. */
  lemma {:induction false} SlicesAt<T>(s: seq<T>, k: nat, j: nat)
    requires k > 0 && j < |Slices(s, k)|
    ensures j * k < |s|
    ensures Slices(s, k)[j] == s[j * k..Min(j * k + k, |s|)]
    decreases |s|
  {
    if j > 0 {
      assert |s| > k;
      SlicesAt(s[k..], k, j - 1);
      assert (j - 1) * k + k == j * k;
      assert Slices(s, k)[j] == Slices(s[k..], k)[j - 1];
    }
  }

  /** `chunk_size = max_tokens * 4` character slicing of the fallback path. */
  function CharChunks(text: string, chunkSize: int): (r: Result<seq<string>, PyError>)
    ensures chunkSize == 0 ==> r == Failure(ValueError)
    ensures chunkSize < 0 ==> r == Success([])
    ensures chunkSize > 0 ==>
      r.Success? && Flatten(r.value) == text &&
      |r.value| == CeilDiv(|text|, chunkSize) &&
      (forall i :: 0 <= i < |r.value| ==> 0 < |r.value[i]| <= chunkSize) &&
      (forall i :: 0 <= i < |r.value| - 1 ==> |r.value[i]| == chunkSize)
  {
    if chunkSize == 0 then Failure(ValueError)
    else if chunkSize < 0 then Success([])
    else
      SlicesFlatten(text, chunkSize);
      SlicesCount(text, chunkSize);
      SlicesFull(text, chunkSize);
      Success(Slices(text, chunkSize))
  }

  /** Every chunk of the character fallback is estimated at no more than `max_tokens` tokens. */
  lemma FallbackChunksWithinBudget(text: string, maxTokens: int)
    requires maxTokens > 0
    ensures CharChunks(text, maxTokens * 4).Success?
    ensures forall c :: c in CharChunks(text, maxTokens * 4).value ==> EstimateTokens(c) <= maxTokens
  {
  }

  /** Decoding every group in order; `None` as soon as one decode raises. */
  function DecodeAll(decode: seq<Token> -> Option<string>, groups: seq<seq<Token>>): (r: Option<seq<string>>)
    ensures r.Some? ==> |r.value| == |groups|
    ensures r.Some? ==> forall i :: 0 <= i < |groups| ==> decode(groups[i]) == Some(r.value[i])
    ensures r.None? ==> exists i :: 0 <= i < |groups| && decode(groups[i]).None?
  {
    if groups == [] then Some([])
    else match decode(groups[0])
      case None => None
      case Some(c) =>
        match DecodeAll(decode, groups[1..])
        case None => None
        case Some(cs) => Some([c] + cs)
  }

  lemma {:induction false} DecodeAllSnoc(decode: seq<Token> -> Option<string>, done: seq<seq<Token>>, g: seq<Token>, chunks: seq<string>)
    requires DecodeAll(decode, done) == Some(chunks)
    ensures DecodeAll(decode, done + [g]) == (match decode(g) case None => None case Some(c) => Some(chunks + [c]))
    decreases |done|
  {
    if done == [] {
      assert done + [g] == [g];
      assert [g][1..] == [];
      assert chunks == [];
      match decode(g) {
        case None =>
        case Some(c) => assert [c] + [] == chunks + [c];
      }
    } else {
      assert (done + [g])[0] == done[0];
      assert (done + [g])[1..] == done[1..] + [g];
      assert decode(done[0]).Some?;
      var c0 := decode(done[0]).value;
      assert DecodeAll(decode, done[1..]).Some?;
      var rest := DecodeAll(decode, done[1..]).value;
      assert chunks == [c0] + rest;
      DecodeAllSnoc(decode, done[1..], g, rest);
      match decode(g) {
        case None =>
        case Some(c) =>
          assert DecodeAll(decode, done[1..] + [g]) == Some(rest + [c]);
          assert [c0] + (rest + [c]) == chunks + [c];
      }
    }
  }

  lemma {:induction false} DecodeAllFailsAfter(decode: seq<Token> -> Option<string>, done: seq<seq<Token>>, g: seq<Token>, rest: seq<seq<Token>>)
    requires DecodeAll(decode, done).Some? && decode(g).None?
    ensures DecodeAll(decode, done + [g] + rest).None?
    decreases |done|
  {
    if done == [] {
      assert done + [g] + rest == [g] + rest;
    } else {
      assert (done + [g] + rest)[0] == done[0];
      assert (done + [g] + rest)[1..] == done[1..] + [g] + rest;
      DecodeAllFailsAfter(decode, done[1..], g, rest);
    }
  }

  /** What `chunk_text(text, max_tokens)` returns or raises. */
  function ChunkTextResult(enc: Option<Encoder>, text: string, maxTokens: int): Result<seq<string>, PyError>
  {
    match enc
    case None => CharChunks(text, maxTokens * 4)
    case Some(e) =>
      match e.encode(text)
      case None => CharChunks(text, maxTokens * 4)
      case Some(tokens) =>
        if maxTokens == 0 then CharChunks(text, 0)
        else if maxTokens < 0 then Success([])
        else match DecodeAll(e.decode, Slices(tokens, maxTokens))
          case Some(chunks) => Success(chunks)
          case None => CharChunks(text, maxTokens * 4)
  }

  /**
   * With a working tokenizer and a positive limit, the chunks are the
   * decoded groups of at most `max_tokens` tokens, and the groups together
   * are exactly the encoded text.
   */
  lemma TokenChunks(e: Encoder, text: string, maxTokens: int)
    requires maxTokens > 0 && e.encode(text).Some?
    requires DecodeAll(e.decode, Slices(e.encode(text).value, maxTokens)).Some?
    ensures var groups := Slices(e.encode(text).value, maxTokens);
      ChunkTextResult(Some(e), text, maxTokens) == Success(DecodeAll(e.decode, groups).value) &&
      Flatten(groups) == e.encode(text).value &&
      |groups| == CeilDiv(|e.encode(text).value|, maxTokens) &&
      forall i :: 0 <= i < |groups| ==> 0 < |groups[i]| <= maxTokens
  {
    SlicesFlatten(e.encode(text).value, maxTokens);
    SlicesCount(e.encode(text).value, maxTokens);
  }

  /** `chunk_text(text, max_tokens)`: the loop over token groups, falling back to characters on any error. */
  method ChunkText(enc: Option<Encoder>, text: string, maxTokens: int) returns (r: Result<seq<string>, PyError>)
    ensures r == ChunkTextResult(enc, text, maxTokens)
  {
    if enc.None? {
      return CharChunks(text, maxTokens * 4);
    }
    var e := enc.value;
    var encoded := e.encode(text);
    if encoded.None? {
      return CharChunks(text, maxTokens * 4);
    }
    var tokens := encoded.value;
    if maxTokens == 0 {
      // range() refuses a zero step, and so does the fallback in the handler
      return CharChunks(text, 0);
    }
    if maxTokens < 0 {
      return Success([]);
    }
    var chunks: seq<string> := [];
    ghost var done: seq<seq<Token>> := [];
    var i := 0;
    while i < |tokens|
      invariant 0 <= i
      invariant Slices(tokens, maxTokens) == done + Slices(tokens[Min(i, |tokens|)..], maxTokens)
      invariant DecodeAll(e.decode, done) == Some(chunks)
      decreases |tokens| - i
    {
      var group := tokens[i..Min(i + maxTokens, |tokens|)];
      SlicesUnfold(tokens[i..], maxTokens);
      assert tokens[i..][..Min(maxTokens, |tokens| - i)] == group;
      assert tokens[i..][Min(maxTokens, |tokens| - i)..] == tokens[Min(i + maxTokens, |tokens|)..];
      var decoded := e.decode(group);
      assert Slices(tokens, maxTokens) == done + [group] + Slices(tokens[Min(i + maxTokens, |tokens|)..], maxTokens);
      if decoded.None? {
        DecodeAllFailsAfter(e.decode, done, group, Slices(tokens[Min(i + maxTokens, |tokens|)..], maxTokens));
        return CharChunks(text, maxTokens * 4);
      }
      DecodeAllSnoc(e.decode, done, group, chunks);
      chunks := chunks + [decoded.value];
      done := done + [group];
      i := i + maxTokens;
    }
    assert tokens[|tokens|..] == [];
    assert done == Slices(tokens, maxTokens);
    r := Success(chunks);
  }

  /** Which remote call a retry loop wraps. */
  datatype RequestKind = ChatRequest | EmbeddingRequest

  /** `LLMError`: raised after the last attempt, naming the attempt count and the last error. */
  datatype LLMError = LLMError(kind: RequestKind, maxRetries: int, cause: string)

  /** How a retrying call ends: a value, `LLMError`, or falling off the loop without returning. */
  datatype Outcome<T> = Returned(value: T) | Raised(error: LLMError) | ReturnedNone

  function Pow2(k: nat): (p: nat)
    ensures p >= 1
  {
    if k == 0 then 1 else 2 * Pow2(k - 1)
  }

  /** The waits after the first `n` failed attempts: 1, 2, 4, ... seconds. */
  function Backoff(n: nat): (w: seq<nat>)
    ensures |w| == n && forall k :: 0 <= k < n ==> w[k] == Pow2(k)
  {
    seq(n, k requires 0 <= k < n => Pow2(k))
  }

  function Sum(xs: seq<nat>): nat
  {
    if xs == [] then 0 else Sum(xs[..|xs| - 1]) + xs[|xs| - 1]
  }

  /** Waiting after `n` failed attempts takes `2**n - 1` seconds in all. */
  lemma {:induction false} BackoffTotal(n: nat)
    ensures Sum(Backoff(n)) == Pow2(n) - 1
  {
    if n > 0 {
      BackoffTotal(n - 1);
      assert Backoff(n)[..n - 1] == Backoff(n - 1);
    }
  }

  /**
   * The `for attempt in range(max_retries)` loop. `call(k)` is what attempt
   * `k` of the remote call gives. Returns the outcome, the number of attempts
   * made and the waits between them.
   */
  method RequestWithRetries<T>(kind: RequestKind, maxRetries: int, call: nat -> Result<T, string>)
    returns (r: Outcome<T>, attempts: nat, sleeps: seq<nat>)
    ensures maxRetries <= 0 ==> r == ReturnedNone && attempts == 0
    ensures maxRetries > 0 ==> 1 <= attempts <= maxRetries && !r.ReturnedNone?
    ensures forall k: nat :: k + 1 < attempts ==> call(k).Failure?
    ensures r.Returned? ==> attempts >= 1 && call(attempts - 1).Success? && r.value == call(attempts - 1).value
    ensures r.Raised? ==> attempts == maxRetries && attempts >= 1 && call(attempts - 1).Failure? &&
                          r.error == LLMError(kind, maxRetries, call(attempts - 1).error)
    ensures r.Returned? <==> exists k: nat :: k < maxRetries && call(k).Success?
    ensures sleeps == Backoff(if attempts == 0 then 0 else attempts - 1)
  {
    r, attempts, sleeps := ReturnedNone, 0, [];
    var attempt: nat := 0;
    while attempt < maxRetries
      invariant attempts == attempt
      invariant maxRetries > 0 ==> attempt < maxRetries
      invariant maxRetries <= 0 ==> attempt == 0
      invariant forall k: nat :: k < attempt ==> call(k).Failure?
      invariant sleeps == Backoff(attempt)
    {
      attempts := attempts + 1;
      var response := call(attempt);
      match response {
        case Success(v) =>
          r := Returned(v);
          return;
        case Failure(e) =>
          if attempt < maxRetries - 1 {
            sleeps := sleeps + [Pow2(attempt)];
          } else {
            r := Raised(LLMError(kind, maxRetries, e));
            return;
          }
      }
      attempt := attempt + 1;
    }
  }

  /** `get_chat_response(messages, max_retries=...)`: the chat call under the retry loop. */
  method GetChatResponse(maxRetries: int, complete: nat -> Result<string, string>)
    returns (r: Outcome<string>, attempts: nat, sleeps: seq<nat>)
    ensures maxRetries <= 0 ==> r == ReturnedNone && attempts == 0
    ensures maxRetries > 0 ==> 1 <= attempts <= maxRetries && !r.ReturnedNone?
    ensures forall k: nat :: k + 1 < attempts ==> complete(k).Failure?
    ensures r.Returned? ==> attempts >= 1 && complete(attempts - 1) == Success(r.value)
    ensures r.Raised? ==> attempts == maxRetries && attempts >= 1 && complete(attempts - 1).Failure? &&
                          r.error == LLMError(ChatRequest, maxRetries, complete(attempts - 1).error)
    ensures r.Returned? <==> exists k: nat :: k < maxRetries && complete(k).Success?
    ensures sleeps == Backoff(if attempts == 0 then 0 else attempts - 1)
  {
    r, attempts, sleeps := RequestWithRetries(ChatRequest, maxRetries, complete);
  }

  /** `get_embedding(text, max_retries=...)`: the embedding call under the retry loop. */
  method GetEmbedding(maxRetries: int, embed: nat -> Result<seq<real>, string>)
    returns (r: Outcome<seq<real>>, attempts: nat, sleeps: seq<nat>)
    ensures maxRetries <= 0 ==> r == ReturnedNone && attempts == 0
    ensures maxRetries > 0 ==> 1 <= attempts <= maxRetries && !r.ReturnedNone?
    ensures forall k: nat :: k + 1 < attempts ==> embed(k).Failure?
    ensures r.Returned? ==> attempts >= 1 && embed(attempts - 1) == Success(r.value)
    ensures r.Raised? ==> attempts == maxRetries && attempts >= 1 && embed(attempts - 1).Failure? &&
                          r.error == LLMError(EmbeddingRequest, maxRetries, embed(attempts - 1).error)
    ensures r.Returned? <==> exists k: nat :: k < maxRetries && embed(k).Success?
    ensures sleeps == Backoff(if attempts == 0 then 0 else attempts - 1)
  {
    r, attempts, sleeps := RequestWithRetries(EmbeddingRequest, maxRetries, embed);
  }
}
