/**
 * The proof-of-work engine (challenge generation and verification) and the
 * brute-force solver. SHA-256 is not modelled: every member that hashes
 * takes the hash as a parameter `sha`, an arbitrary function from the
 * concatenated text to a 32-byte digest, so every fact proved here holds
 * for every such function.
 */
module PoW {
  import opened Wrappers
  import opened Domain
  import Strconv
  import Strings
  import Hex

  /** Challenge values are drawn from [0, ValueRange). */
  const ValueRange: nat := 1000000

  /** sha256.Sum256 applied to the bytes of a string. */
  type Sum256 = string -> Hex.Digest

  /** The engine: only its difficulty. Its random source becomes the `draw`
      argument of Generate. */
  datatype PoW = PoW(difficulty: int)

  function NewPoW(difficulty: int): (pow: PoW)
    ensures pow.difficulty == difficulty
  {
    PoW(difficulty)
  }

  /** The challenge for a drawn number: its decimal text and the engine's difficulty. */
  function Generate(pow: PoW, draw: int): (c: Challenge)
    requires 0 <= draw < ValueRange
    ensures c.difficulty == pow.difficulty
    ensures c.value == Strconv.Itoa(draw) && Strconv.Atoi(c.value) == Ok(draw)
    ensures 1 <= |c.value| <= 6 && Strconv.AllDigits(c.value)
  {
    Strconv.AtoiItoa(draw);
    assert Strconv.Pow10(6) == ValueRange;
    Strconv.NatDecimalLength(draw, 6);
    Challenge(Strconv.Itoa(draw), pow.difficulty)
  }

  /** The check shared by Verify and Solve: the hex rendering of the digest
      of `input` starts with `difficulty` '0' characters. */
  predicate MeetsDifficulty(sha: Sum256, input: string, difficulty: nat) {
    Strings.HasPrefix(Hex.Encode(sha(input)), Strings.Repeat("0", difficulty))
  }

  /** Verify hashes the challenge value followed by the solution, and checks
      it against the ENGINE's difficulty; the challenge's own difficulty is
      not read. */
  function Verify(pow: PoW, sha: Sum256, challenge: Challenge, solution: Solution): (ok: bool)
    requires pow.difficulty >= 0
    ensures ok <==> Hex.LeadingZeroNibbles(sha(challenge.value + solution), pow.difficulty)
    ensures pow.difficulty > 2 * Hex.DigestSize ==> !ok
  {
    Hex.ZeroPrefixIffZeroNibbles(sha(challenge.value + solution), pow.difficulty);
    MeetsDifficulty(sha, challenge.value + solution, pow.difficulty)
  }

  /** The solver's test for one nonce: it uses the CHALLENGE's difficulty. */
  predicate NonceSolves(sha: Sum256, challenge: Challenge, nonce: nat)
    requires challenge.difficulty >= 0
  {
    MeetsDifficulty(sha, challenge.value + Strconv.Itoa(nonce), challenge.difficulty)
  }

  /** nonce is the least one the solver accepts. */
  ghost predicate LeastSolvingNonce(sha: Sum256, challenge: Challenge, nonce: nat)
    requires challenge.difficulty >= 0
  {
    NonceSolves(sha, challenge, nonce) && forall m :: 0 <= m < nonce ==> !NonceSolves(sha, challenge, m)
  }

  /**
   * Solver.Solve tries nonces 0, 1, 2, ... and returns the decimal text of
   * the first that passes. The search in the source has no bound; here it
   * stops after `fuel` nonces and then answers None.
   */
  method Solve(sha: Sum256, challenge: Challenge, fuel: nat) returns (solution: Option<Solution>)
    requires challenge.difficulty >= 0
    ensures solution.Some? ==>
              && Strconv.Atoi(solution.value).Ok?
              && var n := Strconv.Atoi(solution.value).value;
              && 0 <= n < fuel
              && solution.value == Strconv.Itoa(n)
              && LeastSolvingNonce(sha, challenge, n)
    ensures solution.None? ==> forall m :: 0 <= m < fuel ==> !NonceSolves(sha, challenge, m)
    ensures challenge.difficulty == 0 && fuel > 0 ==> solution == Some("0")
  {
    var nonce := 0;
    while nonce < fuel
      invariant 0 <= nonce <= fuel
      invariant forall m :: 0 <= m < nonce ==> !NonceSolves(sha, challenge, m)
      invariant challenge.difficulty == 0 ==> nonce == 0
    {
      var hash := sha(challenge.value + Strconv.Itoa(nonce));
      var hashStr := Hex.Encode(hash);
      var prefix := Strings.Repeat("0", challenge.difficulty);
      if Strings.HasPrefix(hashStr, prefix) {
        Strconv.AtoiItoa(nonce);
        return Some(Strconv.Itoa(nonce));
      }
      nonce := nonce + 1;
    }
    return None;
  }

  /** What the solver accepts, the engine accepts, when both use the same difficulty. */
  lemma SolvedNonceVerifies(pow: PoW, sha: Sum256, challenge: Challenge, nonce: nat)
    requires challenge.difficulty == pow.difficulty >= 0
    requires NonceSolves(sha, challenge, nonce)
    ensures Verify(pow, sha, challenge, Strconv.Itoa(nonce))
  {
  }

  /**
   * Generate, solve and verify, as the round trip between server and client:
   * whenever the solver finds a nonce, the engine accepts it.
   */
  method SolveThenVerify(pow: PoW, sha: Sum256, draw: int, fuel: nat) returns (accepted: Option<bool>)
    requires pow.difficulty >= 0 && 0 <= draw < ValueRange
    ensures accepted.Some? ==> accepted.value
    ensures accepted.None? ==>
              forall m :: 0 <= m < fuel ==> !Verify(pow, sha, Generate(pow, draw), Strconv.Itoa(m))
  {
    var challenge := Generate(pow, draw);
    var solution := Solve(sha, challenge, fuel);
    if solution.None? {
      forall m | 0 <= m < fuel
        ensures !Verify(pow, sha, challenge, Strconv.Itoa(m))
      {
        assert !NonceSolves(sha, challenge, m);
      }
      return None;
    }
    return Some(Verify(pow, sha, challenge, solution.value));
  }

  /** At difficulty 0 every solution is accepted. */
  lemma ZeroDifficultyAcceptsAll(sha: Sum256, challenge: Challenge, solution: Solution)
    ensures Verify(PoW(0), sha, challenge, solution)
  {
  }

  /** A solution accepted at some difficulty is accepted at every lower one. */
  lemma VerifyMonotone(sha: Sum256, challenge: Challenge, solution: Solution, d: nat, d': nat)
    requires d' <= d
    requires Verify(PoW(d), sha, challenge, solution)
    ensures Verify(PoW(d'), sha, challenge, solution)
  {
  }

  /** Verify's answer does not depend on the difficulty written in the challenge. */
  lemma VerifyIgnoresChallengeDifficulty(pow: PoW, sha: Sum256, challenge: Challenge, solution: Solution, d: int)
    requires pow.difficulty >= 0
    ensures Verify(pow, sha, challenge, solution) == Verify(pow, sha, Challenge(challenge.value, d), solution)
  {
  }

  /** A digest whose first byte is 0x0f: one leading zero nibble, not two. */
  const OneZeroNibble: Hex.Digest := [15] + seq(31, _ => 0)

  /**
   * The asymmetry has consequences: a challenge that claims difficulty 1 to a
   * solver, checked by an engine of difficulty 2, gets a solution the engine
   * rejects (for a hash that always yields OneZeroNibble).
   */
  lemma ChallengeDifficultyMismatch()
    ensures var sha: Sum256 := _ => OneZeroNibble;
            var challenge := Challenge("7", 1);
            NonceSolves(sha, challenge, 0) && !Verify(PoW(2), sha, challenge, Strconv.Itoa(0))
  {
    var sha: Sum256 := _ => OneZeroNibble;
    var challenge := Challenge("7", 1);
    var input := challenge.value + Strconv.Itoa(0);
    assert Hex.Nibble(OneZeroNibble, 0) == 0;
    assert Hex.Nibble(OneZeroNibble, 1) == 15;
    Hex.ZeroPrefixIffZeroNibbles(sha(input), 1);
  }
}
