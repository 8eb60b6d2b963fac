/**
 * The referral-code issuer of `src/utils/generateReferralCode.js`.
 *
 * `Math.random` becomes an injected source of alphabet indices (the k-th
 * draw, already scaled and floored into [0, 36)), and the `registrations`
 * table becomes a lookup that tells, for a candidate code, whether a row
 * with that code exists, no row exists, or the query failed. The issuer
 * only ever reads through that lookup.
 */
module ReferralCode {
  import opened Results

  /** The alphabet `randomAlphanumeric` draws from. */
  const Chars: string := "ABCDEFGHIJKLMNOPQRSTUVWXYZ0123456789"

  /** Every code starts with this literal. */
  const Prefix: string := "ENG-"

  /** Number of random characters after the prefix. */
  const RandomLength: nat := 4

  /** The default value of `maxAttempts`. */
  const DefaultMaxAttempts: int := 5

  /** The message thrown once every attempt found its candidate taken. */
  const ExhaustedMessage: string := "Unable to generate a unique referral code. Please try again."

  /** `Math.floor(Math.random() * chars.length)`. */
  type AlphabetIndex = i: int | 0 <= i < 36

  /** The k-th draw of the random source. */
  type RandomSource = nat -> AlphabetIndex

  /** What `select('id').eq('referral_code', code).maybeSingle()` reports. */
  datatype QueryReply = Taken | Free | QueryFailed(message: string)

  /** The store, as seen by the issuer during one call. */
  type Lookup = string -> QueryReply

  predicate IsAlphanumeric(c: char) {
    'A' <= c <= 'Z' || '0' <= c <= '9'
  }

  /** `chars.charAt(i)`. */
  function CharAt(i: AlphabetIndex): (c: char)
    ensures IsAlphanumeric(c)
  {
    Chars[i]
  }

  /** The string `randomAlphanumeric(length)` builds from the draws
      `random(start)`, ..., `random(start + length - 1)`. */
  function Alphanumeric(length: nat, random: RandomSource, start: nat): (r: string)
    ensures |r| == length
    ensures forall k | 0 <= k < |r| :: IsAlphanumeric(r[k])
  {
    var r := seq(length, k requires 0 <= k < length => CharAt(random(start + k)));
    assert forall k | 0 <= k < |r| :: r[k] == CharAt(random(start + k));
    r
  }

  /** The shape of every issued code: `ENG-` and four characters of `A-Z0-9`. */
  predicate IsReferralCode(s: string) {
    && |s| == |Prefix| + RandomLength
    && s[..|Prefix|] == Prefix
    && forall k | |Prefix| <= k < |s| :: IsAlphanumeric(s[k])
  }

  /** The candidate of attempt `attempt`; attempt i uses draws 4i .. 4i+3. */
  function Candidate(random: RandomSource, attempt: nat): (code: string)
    ensures IsReferralCode(code)
  {
    Prefix + Alphanumeric(RandomLength, random, RandomLength * attempt)
  }

  /** The result of one call together with the codes it looked up, in order. */
  datatype Issuance = Issuance(outcome: Result<string>, queried: seq<string>)

  /** The loop of `generateReferralCode` from attempt `attempt` on. */
  function IssueFrom(attempt: nat, maxAttempts: int, random: RandomSource, lookup: Lookup): Issuance
    decreases maxAttempts - attempt
  {
    if attempt >= maxAttempts then Issuance(Err(ExhaustedMessage), [])
    else
      var code := Candidate(random, attempt);
      match lookup(code)
      case QueryFailed(m) => Issuance(Err(m), [code])
      case Free => Issuance(Ok(code), [code])
      case Taken =>
        var rest := IssueFrom(attempt + 1, maxAttempts, random, lookup);
        Issuance(rest.outcome, [code] + rest.queried)
  }

  /** `generateReferralCode(maxAttempts)`. */
  function Issue(maxAttempts: int, random: RandomSource, lookup: Lookup): Issuance {
    IssueFrom(0, maxAttempts, random, lookup)
  }

  /** `randomAlphanumeric(length)`: appends one drawn character per round. */
  method RandomAlphanumeric(length: nat, random: RandomSource, start: nat) returns (result: string)
    ensures result == Alphanumeric(length, random, start)
  {
    result := "";
    for i := 0 to length
      invariant result == Alphanumeric(i, random, start)
    {
      result := result + [CharAt(random(start + i))];
    }
  }

  /** `generateReferralCode(maxAttempts)`: at most `maxAttempts` rounds of
      "draw a candidate, look it up"; the first free candidate is returned,
      a failed query aborts with its message. `queried` lists the codes
      looked up, in order. */
  method GenerateReferralCode(maxAttempts: int, random: RandomSource, lookup: Lookup)
    returns (outcome: Result<string>, queried: seq<string>)
    ensures Issuance(outcome, queried) == Issue(maxAttempts, random, lookup)
  {
    queried := [];
    var i: nat := 0;
    while i < maxAttempts
      invariant |queried| == i
      invariant Issue(maxAttempts, random, lookup)
        == var rest := IssueFrom(i, maxAttempts, random, lookup); Issuance(rest.outcome, queried + rest.queried)
      decreases maxAttempts - i
    {
      var suffix := RandomAlphanumeric(RandomLength, random, RandomLength * i);
      var code := Prefix + suffix;
      var reply := lookup(code);
      queried := queried + [code];
      match reply
      case QueryFailed(m) =>
        return Err(m), queried;
      case Free =>
        return Ok(code), queried;
      case Taken =>
      i := i + 1;
    }
    outcome := Err(ExhaustedMessage);
  }

  /** What the calls make of the store: each lookup is a read for the
      candidate of that round; there are never more than `maxAttempts` of
      them (none at all when `maxAttempts <= 0`), and every one but the last
      found its candidate taken. */
  lemma {:induction false} IssueQueries(attempt: nat, maxAttempts: int, random: RandomSource, lookup: Lookup)
    ensures var r := IssueFrom(attempt, maxAttempts, random, lookup);
      && (attempt >= maxAttempts ==> r == Issuance(Err(ExhaustedMessage), []))
      && (attempt < maxAttempts ==> 1 <= |r.queried| <= maxAttempts - attempt)
      && (forall k | 0 <= k < |r.queried| :: r.queried[k] == Candidate(random, attempt + k))
      && (forall k | 0 <= k < |r.queried| - 1 :: lookup(r.queried[k]) == Taken)
    decreases maxAttempts - attempt
  {
    if attempt < maxAttempts && lookup(Candidate(random, attempt)) == Taken {
      IssueQueries(attempt + 1, maxAttempts, random, lookup);
      var rest := IssueFrom(attempt + 1, maxAttempts, random, lookup);
      assert attempt + 1 < maxAttempts ==> |rest.queried| >= 1;
      forall k | 1 <= k < |rest.queried| + 1
        ensures ([Candidate(random, attempt)] + rest.queried)[k] == Candidate(random, attempt + k)
      {
        assert rest.queried[k - 1] == Candidate(random, attempt + 1 + (k - 1));
      }
    }
  }

  /** A returned code is the last candidate looked up, and the store
      reported no row for it; so it has the `ENG-XXXX` shape. */
  lemma {:induction false} IssuedCodeIsFree(attempt: nat, maxAttempts: int, random: RandomSource, lookup: Lookup)
    ensures var r := IssueFrom(attempt, maxAttempts, random, lookup);
      r.outcome.Ok? ==>
        && r.queried != []
        && r.outcome.value == r.queried[|r.queried| - 1]
        && lookup(r.outcome.value) == Free
        && IsReferralCode(r.outcome.value)
    decreases maxAttempts - attempt
  {
    if attempt < maxAttempts && lookup(Candidate(random, attempt)) == Taken {
      IssuedCodeIsFree(attempt + 1, maxAttempts, random, lookup);
    }
  }

  /** The call stops at the first candidate the store does not report as
      taken: a free one is returned, a failed query ends it with the
      query's message, and either way no later attempt is made. */
  lemma {:induction false} IssueStopsAtFirstReply(attempt: nat, k: nat, maxAttempts: int, random: RandomSource, lookup: Lookup)
    requires attempt <= k < maxAttempts
    requires forall j | attempt <= j < k :: lookup(Candidate(random, j)) == Taken
    requires lookup(Candidate(random, k)) != Taken
    ensures var r := IssueFrom(attempt, maxAttempts, random, lookup);
      && |r.queried| == k - attempt + 1
      && r.outcome == match lookup(Candidate(random, k))
                      case Free => Ok(Candidate(random, k))
                      case QueryFailed(m) => Err(m)
                      case Taken => Err(ExhaustedMessage)
    decreases k - attempt
  {
    if attempt < k {
      assert lookup(Candidate(random, attempt)) == Taken;
      IssueStopsAtFirstReply(attempt + 1, k, maxAttempts, random, lookup);
    }
  }

  /** When every candidate is taken the call throws the fixed exhaustion
      message after exactly `maxAttempts` lookups. */
  lemma {:induction false} IssueExhausted(attempt: nat, maxAttempts: int, random: RandomSource, lookup: Lookup)
    requires forall j | attempt <= j < maxAttempts :: lookup(Candidate(random, j)) == Taken
    ensures var r := IssueFrom(attempt, maxAttempts, random, lookup);
      && r.outcome == Err(ExhaustedMessage)
      && |r.queried| == if attempt < maxAttempts then maxAttempts - attempt else 0
    decreases maxAttempts - attempt
  {
    if attempt < maxAttempts {
      IssueExhausted(attempt + 1, maxAttempts, random, lookup);
    }
  }

  /** With the default budget and a store that reports every candidate
      taken, the call fails after exactly five lookups. */
  lemma DefaultBudgetExhausted(random: RandomSource, lookup: Lookup)
    requires forall c :: lookup(c) == Taken
    ensures Issue(DefaultMaxAttempts, random, lookup) == Issuance(Err(ExhaustedMessage), Issue(DefaultMaxAttempts, random, lookup).queried)
    ensures |Issue(DefaultMaxAttempts, random, lookup).queried| == 5
  {
    IssueExhausted(0, DefaultMaxAttempts, random, lookup);
  }

  /** A store that reports every existing code as taken never gets one of
      them back. */
  lemma IssuedCodeIsNew(existing: set<string>, maxAttempts: int, random: RandomSource, lookup: Lookup)
    requires forall c | c in existing :: lookup(c) == Taken
    ensures Issue(maxAttempts, random, lookup).outcome.Ok? ==> Issue(maxAttempts, random, lookup).outcome.value !in existing
  {
    IssuedCodeIsFree(0, maxAttempts, random, lookup);
  }

  /** Successive successful calls, each against a store that already holds
      the codes issued before it, return pairwise distinct codes. */
  lemma IssuedCodesDistinct(budgets: seq<int>, randoms: seq<RandomSource>, lookups: seq<Lookup>)
    requires |budgets| == |randoms| == |lookups|
    requires forall n | 0 <= n < |lookups| :: Issue(budgets[n], randoms[n], lookups[n]).outcome.Ok?
    requires forall m, n | 0 <= m < n < |lookups| ::
      lookups[n](Issue(budgets[m], randoms[m], lookups[m]).outcome.value) == Taken
    ensures forall m, n | 0 <= m < n < |lookups| ::
      Issue(budgets[m], randoms[m], lookups[m]).outcome.value != Issue(budgets[n], randoms[n], lookups[n]).outcome.value
  {
    forall n | 0 <= n < |lookups| {
      IssuedCodeIsFree(0, budgets[n], randoms[n], lookups[n]);
    }
  }
}
