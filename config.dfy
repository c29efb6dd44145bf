/**
 * The server configuration read from the environment. The environment is a
 * map; a variable that is not set reads as the empty string, as os.Getenv
 * returns it.
 */
module Config {
  import opened Wrappers
  import Strconv

  const MaxWorkersKey := "MAX_WORKERS"
  const ServerAddressKey := "SERVER_ADDRESS"
  const ComplexityKey := "COMPLEXITY"

  datatype Config = Config(maxWorkers: int, serverAddress: string, complexity: int)

  /** The three ways NewConfig fails; the first and last wrap Atoi's error. */
  datatype ConfigError =
    | MaxWorkersInvalid(cause: Strconv.NumError)
    | ServerAddressUnset
    | ComplexityInvalid(cause: Strconv.NumError)

  type Environment = map<string, string>

  /** os.Getenv. */
  function Getenv(env: Environment, key: string): (value: string) {
    if key in env then env[key] else ""
  }

  /** Every check env fails, in the order of the variables: a reference
      definition that looks at each variable on its own. */
  function Failures(env: Environment): (failures: seq<ConfigError>) {
    var maxWorkers := Strconv.Atoi(Getenv(env, MaxWorkersKey));
    var complexity := Strconv.Atoi(Getenv(env, ComplexityKey));
    (if maxWorkers.Err? then [MaxWorkersInvalid(maxWorkers.error)] else [])
    + (if Getenv(env, ServerAddressKey) == "" then [ServerAddressUnset] else [])
    + (if complexity.Err? then [ComplexityInvalid(complexity.error)] else [])
  }

  /**
   * NewConfig parses MAX_WORKERS, then requires SERVER_ADDRESS, then parses
   * COMPLEXITY, and reports the first failure. It fails exactly when some
   * check fails, and then with the first failing check; on success the
   * fields are the parsed numbers and the address as set.
   */
  function NewConfig(env: Environment): (r: Result<Config, ConfigError>)
    ensures r.Err? <==> Failures(env) != []
    ensures r.Err? ==> r.error == Failures(env)[0]
    ensures r.Ok? ==>
              && Strconv.Atoi(Getenv(env, MaxWorkersKey)) == Ok(r.value.maxWorkers)
              && r.value.serverAddress == Getenv(env, ServerAddressKey)
              && Strconv.Atoi(Getenv(env, ComplexityKey)) == Ok(r.value.complexity)
  {
    var maxWorkers := Strconv.Atoi(Getenv(env, MaxWorkersKey));
    if maxWorkers.Err? then Err(MaxWorkersInvalid(maxWorkers.error))
    else
      var serverAddress := Getenv(env, ServerAddressKey);
      if serverAddress == "" then Err(ServerAddressUnset)
      else
        var complexity := Strconv.Atoi(Getenv(env, ComplexityKey));
        if complexity.Err? then Err(ComplexityInvalid(complexity.error))
        else Ok(Config(maxWorkers.value, serverAddress, complexity.value))
  }

  /** An unusable MAX_WORKERS decides the result, whatever the other variables hold. */
  lemma MaxWorkersCheckedFirst(env: Environment, env': Environment)
    requires Getenv(env, MaxWorkersKey) == Getenv(env', MaxWorkersKey)
    requires Strconv.Atoi(Getenv(env, MaxWorkersKey)).Err?
    ensures NewConfig(env) == NewConfig(env')
    ensures NewConfig(env) == Err(MaxWorkersInvalid(Strconv.NumError("Atoi", Getenv(env, MaxWorkersKey))))
  {
  }

  /** A missing MAX_WORKERS reads as "" and fails to parse. */
  lemma MissingMaxWorkersFails(env: Environment)
    requires MaxWorkersKey !in env
    ensures NewConfig(env) == Err(MaxWorkersInvalid(Strconv.NumError("Atoi", "")))
  {
  }

  /** With a valid MAX_WORKERS, an empty or missing SERVER_ADDRESS decides the
      result, whatever COMPLEXITY holds. */
  lemma ServerAddressCheckedSecond(env: Environment, env': Environment)
    requires Getenv(env, MaxWorkersKey) == Getenv(env', MaxWorkersKey)
    requires Strconv.Atoi(Getenv(env, MaxWorkersKey)).Ok?
    requires Getenv(env, ServerAddressKey) == "" && Getenv(env', ServerAddressKey) == ""
    ensures NewConfig(env) == NewConfig(env') == Err(ServerAddressUnset)
  {
  }

  /** When the first two checks pass, an unusable COMPLEXITY is reported. */
  lemma ComplexityCheckedThird(env: Environment)
    requires Strconv.Atoi(Getenv(env, MaxWorkersKey)).Ok?
    requires Getenv(env, ServerAddressKey) != ""
    requires Strconv.Atoi(Getenv(env, ComplexityKey)).Err?
    ensures NewConfig(env) == Err(ComplexityInvalid(Strconv.NumError("Atoi", Getenv(env, ComplexityKey))))
  {
  }

  /** No range checks: any integers, zero and negative ones included, written
      in decimal, and any non-empty address give a configuration holding
      exactly those values. */
  lemma NoRangeChecks(env: Environment, maxWorkers: int, address: string, complexity: int)
    requires Getenv(env, MaxWorkersKey) == Strconv.Itoa(maxWorkers)
    requires Getenv(env, ServerAddressKey) == address && address != ""
    requires Getenv(env, ComplexityKey) == Strconv.Itoa(complexity)
    ensures NewConfig(env) == Ok(Config(maxWorkers, address, complexity))
  {
    Strconv.AtoiItoa(maxWorkers);
    Strconv.AtoiItoa(complexity);
  }
}
