# wisdom: a Dafny model of the proof-of-work quote server core

This project models the core of the "wisdom" server. The server hands out a quote only after the client has solved a proof-of-work (PoW) puzzle. The model covers four parts:

- **PoW engine and solver** (`pow.dfy`, with `strconv.dfy`, `strings.dfy`, `hex.dfy`). `Generate` turns a random draw in `[0, 1000000)` into a challenge: its decimal text and the engine's difficulty. `Verify` hashes the challenge value followed by the solution, renders the digest in lowercase hex and checks for `difficulty` leading `'0'` characters. Each character is one 4-bit nibble. `Solve` tries nonces 0, 1, 2, … in order. SHA-256 is not modelled: the digest is a function parameter `sha` from strings to 32 bytes, so every property holds for every hash function. Go's `strconv.Itoa`, `strconv.Atoi`, `strings.Repeat`, `strings.HasPrefix` and the `%x` rendering of a byte array are written out as small functions.
- **Worker** (`worker.dfy`). This is the per-connection state machine: generate, send the challenge with retry, read the solution with retry, check for cancellation, verify, and send one quote if the solution is accepted. A script stands in for the connection and the context. For each retry it gives the outcome of each of the `MAX_RETRY = 3` possible attempts and whether the context is done during each of the 2 possible waits. It also says whether the context is done when the solution has been read, and how the quote send turns out. `Retry` and `Handle` return the error Go would return plus a trace of events (Generate, SendAttempt, RecvAttempt, Wait, Verify, SendQuote). Their contracts state the order of the events and which error comes back; the counts over a whole Handle trace (one Generate, as many sends and reads as the retries attempted, and their waits) are the separate lemma `PhaseCounts`.
- **Quote repository** (`quote.dfy`). `New` panics on an empty list. `Get` returns the stored quote at a random index. The index is a parameter in range. `Get` is a function of the repository value, so it cannot change the stored list.
- **Configuration** (`config.dfy`). `NewConfig` reads `MAX_WORKERS`, `SERVER_ADDRESS` and `COMPLEXITY` from an environment map. A missing variable reads as `""`. It reports the first failing check and does no range checks.

`domain.dfy` holds the challenge, solution and quote types. It also has the wire messages, where the difficulty travels under the JSON key `complexity`. `wrappers.dfy` holds `Option` and `Result`.

Three facts about the Go code shape the model:
- Cancellation is seen only during the waits between attempts and at the check after the solution is read (pkg/server/worker.go:62-64, 92-96). The send and the receive themselves do not observe it.
- A rejected solution makes `Handle` return nil, not an error (pkg/server/worker.go:73-78).
- `COMPLEXITY` is parsed but not checked to be non-negative (pkg/server/config.go:27-30).

## Model

| member | source | states |
|---|---|---|
| Strconv.Itoa | pkg/pow/pow.go:49 | the decimal rendering is non-empty; it is all digits iff the number is non-negative, and starts with '-' iff it is negative; the digits have no leading zero, for negative numbers too |
| Strconv.Atoi | pkg/server/config.go:17 | parsing succeeds exactly on an optional sign followed by at least one digit; a failure carries "Atoi" and the rejected text; a leading '-' gives a value <= 0, otherwise >= 0 |
| Strconv.AtoiItoa | pkg/pow/pow.go:25-26 | parsing the decimal rendering of any integer gives that integer back |
| Strconv.ItoaInjective | pkg/pow/pow.go:49 | distinct nonces are rendered as distinct solutions |
| Strconv.NatDecimalLength | pkg/pow/pow.go:25-26 | a number below 10^k has at most k digits, so a challenge value has at most 6 characters |
| Strings.RepeatChar | pkg/pow/pow.go:32 | repeating "0" n times gives exactly n '0' characters |
| Strings.RepeatedCharPrefix | pkg/pow/pow.go:33 | a string has the n-fold repetition of c as prefix iff it is at least n long and its first n characters are c |
| Hex.HexDigit | pkg/pow/pow.go:31 | each nibble is rendered as a lowercase hex digit, and the digit is '0' iff the nibble is 0 |
| Hex.Encode | pkg/pow/pow.go:31 | the rendering has two characters per byte (64 for a digest) |
| Hex.EncodeAt | pkg/pow/pow.go:31 | character k of the rendering is the digit of nibble k, high nibble of each byte first |
| Hex.EncodeIsLowerHex | pkg/pow/pow.go:31 | every character of the rendering is in 0-9 or a-f |
| Hex.ZeroPrefixIffZeroNibbles | pkg/pow/pow.go:30-33 | a prefix of d '0' characters in the rendering holds iff the first d nibbles are zero, which is impossible for d beyond twice the length |
| PoW.NewPoW | pkg/pow/pow.go:18-22 | the engine keeps the given difficulty unchanged |
| PoW.Generate | pkg/pow/pow.go:24-27 | the challenge carries the engine's difficulty; its value is the decimal rendering of the draw, 1 to 6 digits, and parses back to the draw |
| PoW.Verify | pkg/pow/pow.go:29-34 | a solution is accepted iff the first pow.difficulty nibbles of the digest of value ++ solution are zero; never accepted above difficulty 64 |
| PoW.Solve | pkg/pow/pow.go:42-52 | a returned solution is the decimal rendering of the least nonce meeting the challenge's difficulty, and every smaller nonce fails; no answer means no nonce below the bound passes; at difficulty 0 the answer is "0" |
| PoW.SolvedNonceVerifies | pkg/pow/pow.go:29-52 | a nonce the solver accepts is accepted by an engine with the challenge's difficulty |
| PoW.SolveThenVerify | pkg/pow/pow_test.go:20-26 | generating, solving and verifying: every solution the solver finds is accepted; when none is found, no nonce below the bound verifies |
| PoW.ZeroDifficultyAcceptsAll | pkg/pow/pow.go:32-33 | at difficulty 0 every solution is accepted |
| PoW.VerifyMonotone | pkg/pow/pow.go:32-33 | a solution accepted at difficulty d is accepted at every d' <= d |
| PoW.VerifyIgnoresChallengeDifficulty | pkg/pow/pow.go:29-34 | Verify's answer is the same whatever difficulty the challenge carries |
| PoW.ChallengeDifficultyMismatch | pkg/pow/pow.go:29-52 | a nonce the solver accepts for a challenge saying difficulty 1 can be rejected by an engine of difficulty 2 |
| Quote.New | pkg/quote/quote.go:14-22 | construction fails with the panic message iff the list is empty; otherwise the list is stored unchanged |
| Quote.Get | pkg/quote/quote.go:24-27 | the quote returned is the stored entry at the drawn index, hence one of the stored quotes |
| Quote.GetReachesEveryQuote | pkg/quote/quote.go:25-26 | every stored quote is returned for some in-range draw |
| Quote.NewThenGet | pkg/quote/quote_test.go:20-27 | a repository built from a non-empty list hands out only quotes from that list |
| Config.NewConfig | pkg/server/config.go:16-37 | the result is an error iff some check fails, and then it is the first failing check in the order MAX_WORKERS, SERVER_ADDRESS, COMPLEXITY; on success the fields are the parsed integers and the address verbatim |
| Config.MaxWorkersCheckedFirst | pkg/server/config.go:17-20 | an unparsable MAX_WORKERS gives its error whatever the other variables hold |
| Config.MissingMaxWorkersFails | pkg/server/config.go:17-20 | a missing MAX_WORKERS reads as "" and fails to parse |
| Config.ServerAddressCheckedSecond | pkg/server/config.go:22-25 | with MAX_WORKERS valid, an empty or missing SERVER_ADDRESS gives that error whatever COMPLEXITY holds |
| Config.ComplexityCheckedThird | pkg/server/config.go:27-30 | with the first two checks passed, an unparsable COMPLEXITY gives its error |
| Config.NoRangeChecks | pkg/server/config.go:17-36 | any integers, zero and negative included, and any non-empty address yield a configuration holding exactly those values |
| Worker.ChallengeMessage | pkg/server/worker.go:101-105 | the wire message carries the challenge value and its difficulty as complexity |
| Worker.Retry | pkg/server/worker.go:81-99 | the trace is the retry run the script dictates (attempts alternating with waits, every attempt but the last failed and its wait passed, stopping at the first success, at a cancelled wait or after 3 attempts); the error is nil after a success, Canceled after a wait, otherwise the third failure wrapped with the description; a value is returned iff the error is nil, and it is the successful attempt's |
| Worker.RetryRunDeterministic | pkg/server/worker.go:81-99 | the script's outcomes and cancellations determine the retry run: two runs under the same script are equal |
| Worker.RetryFirstSucceeds | pkg/server/worker.go:83-86 | a first attempt that succeeds is the whole run, with no wait, and the retry returns nil |
| Worker.RetryExhausted | pkg/server/worker.go:82-89 | three failed attempts with no cancellation give a run of 3 attempts and 2 waits, and the third failure wrapped with the description |
| Worker.RetryTraceCounts | pkg/server/worker.go:82-96 | in a retry trace the attempts are (length + 1) / 2 of the events and the waits the rest, so there are at most 2 waits |
| Worker.PhaseCounts | pkg/server/worker.go:38-60 | for every trace of the shape Handle's postcondition gives (Generate, a send retry trace, an optional read retry trace, then only Verify and SendQuote events): Generate occurs exactly once, the challenge is sent as often as the send retry attempted, a solution is read as often as the read retry attempted, and the waits are those of the two retries (half of each retry trace's length, rounded down) |
| Worker.Respond | pkg/server/worker.go:62-78 | cancellation seen after the read returns Canceled with no Verify and no quote, and only then is there no Verify; otherwise Verify is called once on the given challenge and solution; a rejection returns nil with nothing sent; an acceptance sends exactly one quote, the repository's quote for the draw, returning nil or the wrapped send error |
| Worker.Handle | pkg/server/worker.go:38-79 | the trace is Generate of the engine's challenge, then the send retry run the script dictates, then the read retry run exactly when the send retry returned nil, then what Respond does on the generated challenge and the solution read, exactly when the read retry returned nil; a failed or cancelled send or read returns that retry's error with nothing after it |

## Left out

- SHA-256 itself is a foreign library, so the digest is a parameter. A property that depends on real hash values cannot be proved, such as "wrong solution" being rejected (pkg/pow/pow_test.go:29).
- PoW.Verify: requires a non-negative engine difficulty. `strings.Repeat` panics on a negative count, and the model states that demand as a precondition instead of modelling the panic. `NewConfig` accepts a negative `COMPLEXITY`, so such a server would panic at its first verification.
- PoW.Solve: the source search has no bound. The model stops after `fuel` nonces and answers None, because an unbounded loop cannot be proved to terminate. Like Verify, it requires a non-negative challenge difficulty.
- Strconv.Atoi: the 64-bit range error is not modelled. Integers are unbounded, so over-long numbers parse.
- Randomness (`math/rand`, seeded from the clock) becomes the `draw` arguments of `PoW.Generate` and `Quote.Get`, each in the range `Intn` guarantees.
- Time: `RETRY_SLEEP` and `time.After` are reduced to a Wait event. Go's `select` picks at random when the timer and cancellation are both ready; the script's cancellation flag covers both choices.
- JSON encoding and decoding in `SendChallenge`, `ReceiveSolution` and `SendQuote` are library code. Each call is one scripted outcome: success (with the decoded solution message for a read) or a failure cause.
- Worker.Retry: on a failed read the closure in the source also sets `solution` to `""`. The model returns no value instead. Handle returns on that path, so the difference cannot be observed.
- The `PoWRepo` and `QuoteRepo` interfaces are bound to the PoW and quote models. `NewWorker`, `NewSolver` and the logger are not modelled; they only build values or log.
- The package `wisdom/pkg/domain` is not part of this model. Its `Challenge`, `Solution` and `Quote` types are reconstructed from how the core uses them.
- pkg/server/server.go (accept loop, admission channel, goroutines, shutdown), pkg/client/client.go and cmd/ are not part of this model. They are concurrency, network and process plumbing.
