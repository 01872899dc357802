/**
 * `initEnv` of src/envcfg.ts: the layered merge of process variables, the
 * `.env` file and the remote (Supabase) table into `process.env` and the
 * exported `envData`. The process environment, the parsed `.env` file, the
 * client, the sign-in answer and the table query answer are inputs.
 */
module EnvCfg {
  import opened Wrappers

  /** A string-keyed environment (`process.env`, `envData`). */
  type Env = map<string, string>

  /** One row of the remote table. */
  datatype Row = Row(key: string, value: string)

  /** What the table query answered: `{ data, error }`. */
  datatype Answer = Answer(data: Option<seq<Row>>, error: Option<string>)

  /** Why the promise was rejected. `NotSet` and `NoClient` are `reject(false)` in the source. */
  datatype Rejection = NotSet(name: string) | NoClient | SignInError(err: string) | QueryError(err: string)

  datatype Settlement = Resolved | Rejected(reason: Rejection)

  /**
   * The final maps and outcome, with the counts each stage reports in its
   * "Loaded ..." line and the remote table that was queried, if any.
   */
  datatype InitResult = InitResult(
    process: Env, envData: Env, outcome: Settlement,
    processCount: nat, localCount: nat, remoteCount: nat, table: Option<string>)

  const Server := "SUPABASE_SERVER"
  const AnonKey := "SUPABASE_ANON_KEY"
  const Username := "SUPABASE_USERNAME"
  const Password := "SUPABASE_PASSWORD"
  const TableBase := "orange_bot_environment_"

  /** `process.env[key]` is truthy: present and not the empty string. */
  predicate Truthy(env: Env, key: string)
  {
    key in env && env[key] != ""
  }

  /** The remote table for the environment: `_prod` iff `NODE_ENV === "production"`. */
  function TableName(env: Env): (name: string)
    ensures name == TableBase + "prod" || name == TableBase + "dev"
    ensures name == TableBase + "prod" <==> "NODE_ENV" in env && env["NODE_ENV"] == "production"
  {
    TableBase + (if "NODE_ENV" in env && env["NODE_ENV"] == "production" then "prod" else "dev")
  }

  /** The process variables with a non-empty value. */
  function Imported(proc: Env): (envData: Env)
    ensures forall k :: k in envData <==> Truthy(proc, k)
  {
    map k | k in proc && proc[k] != "" :: proc[k]
  }

  /** First stage: copy every process variable with a non-empty value into a fresh `envData`. */
  method ImportProcess(proc: Env) returns (envData: Env, counter: nat)
    ensures forall k :: k in envData <==> Truthy(proc, k)
    ensures forall k :: k in envData ==> k in proc && envData[k] == proc[k]
    ensures envData == Imported(proc)
    ensures counter == |envData|
  {
    envData, counter := map[], 0;
    var pending := proc.Keys;
    while pending != {}
      invariant pending <= proc.Keys
      invariant forall k :: k in envData <==> Truthy(proc, k) && k !in pending
      invariant forall k :: k in envData ==> k in proc && envData[k] == proc[k]
      invariant counter == |envData|
      decreases pending
    {
      var key :| key in pending;
      var envValue := proc[key];
      if envValue != "" {
        envData := envData[key := envValue];
        counter := counter + 1;
      }
      pending := pending - {key};
    }
  }

  /** `r` is `base` overwritten by the entries of `parsed` whose keys are no longer pending. */
  ghost predicate Overlaid(r: Env, base: Env, parsed: Env, pending: set<string>)
  {
    && (forall k :: k in r <==> k in base || (k in parsed && k !in pending))
    && (forall k :: k in parsed && k !in pending ==> r[k] == parsed[k])
    && (forall k :: k in base && (k !in parsed || k in pending) ==> r[k] == base[k])
  }

  /** Writing one pending key's `.env` value takes that key off the pending set. */
  lemma OverlaidStep(r: Env, base: Env, parsed: Env, pending: set<string>, key: string)
    requires Overlaid(r, base, parsed, pending) && key in parsed && key in pending
    ensures Overlaid(r[key := parsed[key]], base, parsed, pending - {key})
  {
  }

  /** With nothing pending, the overlay is the union in which `parsed` wins. */
  lemma OverlaidAll(r: Env, base: Env, parsed: Env)
    requires Overlaid(r, base, parsed, {})
    ensures r == base + parsed
  {
  }

  /** Taking one element out of a set lowers its size by one. */
  lemma RemoveOne(s: set<string>, x: string)
    requires x in s
    ensures |s - {x}| == |s| - 1
  {
  }

  /** A map has as many entries as keys. */
  lemma KeysCard(m: Env)
    ensures |m.Keys| == |m|
  {
  }

  /**
   * Second stage: every parsed `.env` entry overwrites both maps (`proc +
   * parsed` is the union in which `parsed` wins on shared keys).
   */
  method ApplyLocal(proc: Env, envData: Env, parsed: Env) returns (proc': Env, envData': Env, counter: nat)
    ensures proc' == proc + parsed && envData' == envData + parsed
    ensures counter == |parsed|
  {
    proc', envData', counter := proc, envData, 0;
    var pending := parsed.Keys;
    KeysCard(parsed);
    while pending != {}
      invariant pending <= parsed.Keys
      invariant Overlaid(proc', proc, parsed, pending) && Overlaid(envData', envData, parsed, pending)
      invariant counter + |pending| == |parsed|
      decreases pending
    {
      var key :| key in pending;
      OverlaidStep(proc', proc, parsed, pending, key);
      OverlaidStep(envData', envData, parsed, pending, key);
      RemoveOne(pending, key);
      proc' := proc'[key := parsed[key]];
      envData' := envData'[key := parsed[key]];
      counter := counter + 1;
      pending := pending - {key};
    }
    OverlaidAll(proc', proc, parsed);
    OverlaidAll(envData', envData, parsed);
  }

  /** The state of the remote stage: both maps and the counter. */
  datatype Merge = Merge(process: Env, envData: Env, count: nat)

  /**
   * The remote loop over `rows`, one row at a time from the first. Keys are
   * only added, and each row adds at most one to the counter.
   */
  function MergeRows(m: Merge, rows: seq<Row>): (r: Merge)
    ensures m.process.Keys <= r.process.Keys && m.envData.Keys <= r.envData.Keys
    ensures m.count <= r.count <= m.count + |rows|
    decreases |rows|
  {
    if rows == [] then m
    else
      var prev := MergeRows(m, rows[..|rows| - 1]);
      var row := rows[|rows| - 1];
      if row.key in prev.process then prev
      else Merge(prev.process[row.key := row.value], prev.envData[row.key := row.value], prev.count + 1)
  }

  /** The keys the rows name. */
  function RowKeys(rows: seq<Row>): set<string>
  {
    set i | 0 <= i < |rows| :: rows[i].key
  }

  /** The keys of the rows with one more row at the end gain that row's key. */
  lemma RowKeysSnoc(rows: seq<Row>)
    requires rows != []
    ensures RowKeys(rows) == RowKeys(rows[..|rows| - 1]) + {rows[|rows| - 1].key}
  {
    var init := rows[..|rows| - 1];
    forall k | k in RowKeys(rows) ensures k in RowKeys(init) + {rows[|rows| - 1].key} {
      var i :| 0 <= i < |rows| && rows[i].key == k;
      if i < |rows| - 1 { assert init[i] == rows[i]; }
    }
    forall k | k in RowKeys(init) ensures k in RowKeys(rows) {
      var i :| 0 <= i < |init| && init[i].key == k;
      assert rows[i] == init[i];
    }
  }

  /** Third stage: remote rows fill only keys `process.env` does not have yet. */
  method ApplyRemote(proc: Env, envData: Env, rows: seq<Row>) returns (proc': Env, envData': Env, counter: nat)
    ensures Merge(proc', envData', counter) == MergeRows(Merge(proc, envData, 0), rows)
  {
    proc', envData', counter := proc, envData, 0;
    for i := 0 to |rows|
      invariant Merge(proc', envData', counter) == MergeRows(Merge(proc, envData, 0), rows[..i])
    {
      assert rows[..i + 1][..i] == rows[..i];
      var row := rows[i];
      if row.key in proc' {
        continue;
      }
      proc' := proc'[row.key := row.value];
      envData' := envData'[row.key := row.value];
      counter := counter + 1;
    }
    assert rows[..|rows|] == rows;
  }

  /** After the remote stage the process keys are the old ones plus the rows' keys. */
  lemma {:induction false} MergeRowsKeys(m: Merge, rows: seq<Row>)
    requires m.envData.Keys <= m.process.Keys
    ensures MergeRows(m, rows).process.Keys == m.process.Keys + RowKeys(rows)
    ensures MergeRows(m, rows).envData.Keys <= MergeRows(m, rows).process.Keys
    ensures MergeRows(m, rows).envData.Keys == m.envData.Keys + (RowKeys(rows) - m.process.Keys)
    decreases |rows|
  {
    if rows != [] {
      var init := rows[..|rows| - 1];
      MergeRowsKeys(m, init);
      RowKeysSnoc(rows);
    }
  }

  /**
   * A remote row never overwrites a key already in `process.env` (empty
   * value or not): such keys keep their values in both maps.
   */
  lemma {:induction false} MergeRowsKeepsPresent(m: Merge, rows: seq<Row>, k: string)
    requires k in m.process
    ensures k in MergeRows(m, rows).process && MergeRows(m, rows).process[k] == m.process[k]
    ensures k in MergeRows(m, rows).envData <==> k in m.envData
    ensures k in m.envData ==> MergeRows(m, rows).envData[k] == m.envData[k]
    decreases |rows|
  {
    if rows != [] {
      MergeRowsKeepsPresent(m, rows[..|rows| - 1], k);
    }
  }

  /**
   * A key not yet in `process.env` takes the value of the FIRST row that
   * names it (row `i`), in both maps; later duplicates are skipped.
   */
  lemma {:induction false} MergeRowsFirstWins(m: Merge, rows: seq<Row>, k: string, i: nat)
    requires m.envData.Keys <= m.process.Keys && k !in m.process
    requires i < |rows| && rows[i].key == k
    requires forall j :: 0 <= j < i ==> rows[j].key != k
    ensures var r := MergeRows(m, rows);
      k in r.process && k in r.envData && r.process[k] == rows[i].value && r.envData[k] == rows[i].value
    decreases |rows|
  {
    var n := |rows| - 1;
    var init := rows[..n];
    if i < n {
      assert init[i] == rows[i];
      MergeRowsFirstWins(m, init, k, i);
    } else {
      assert k !in RowKeys(init);
      MergeRowsAbsent(m, init, k);
    }
  }

  /** A key no row names and not in `process.env` stays absent from both maps. */
  lemma {:induction false} MergeRowsAbsent(m: Merge, rows: seq<Row>, k: string)
    requires k !in m.process && k !in m.envData && k !in RowKeys(rows)
    ensures k !in MergeRows(m, rows).process && k !in MergeRows(m, rows).envData
    decreases |rows|
  {
    if rows != [] {
      var init := rows[..|rows| - 1];
      RowKeysSnoc(rows);
      MergeRowsAbsent(m, init, k);
    }
  }

  /**
   * The remote counter counts the rows that were not skipped, which is the
   * number of distinct keys the rows name that `process.env` did not have.
   */
  lemma {:induction false} MergeRowsCount(m: Merge, rows: seq<Row>)
    requires m.envData.Keys <= m.process.Keys
    ensures MergeRows(m, rows).count == m.count + |RowKeys(rows) - m.process.Keys|
    decreases |rows|
  {
    if rows == [] {
      assert RowKeys(rows) == {};
    } else {
      var init := rows[..|rows| - 1];
      var key := rows[|rows| - 1].key;
      MergeRowsCount(m, init);
      MergeRowsKeys(m, init);
      RowKeysSnoc(rows);
      NewKeysSnoc(RowKeys(init), key, m.process.Keys);
    }
  }

  /** Adding `key` to the named keys adds one new key exactly when it was neither present nor named. */
  lemma NewKeysSnoc(named: set<string>, key: string, present: set<string>)
    ensures |(named + {key}) - present| == |named - present| + (if key in present + named then 0 else 1)
  {
    if key in present + named {
      assert (named + {key}) - present == named - present;
    } else {
      assert (named + {key}) - present == (named - present) + {key};
    }
  }

  /**
   * Which check, if any, stops `initEnv` before the table is queried. The
   * checks pass exactly when the four Supabase variables are truthy, a client
   * was created and sign-in reported no error; a missing server or anonymous
   * key is reported before anything else.
   */
  function Gate(env: Env, clientCreated: bool, signInError: Option<string>): (r: Option<Rejection>)
    ensures r == None <==>
      && Truthy(env, Server) && Truthy(env, AnonKey) && clientCreated
      && Truthy(env, Username) && Truthy(env, Password) && signInError == None
    ensures !Truthy(env, Server) ==> r == Some(NotSet(Server))
    ensures Truthy(env, Server) && !Truthy(env, AnonKey) ==> r == Some(NotSet(AnonKey))
  {
    if !Truthy(env, Server) then Some(NotSet(Server))
    else if !Truthy(env, AnonKey) then Some(NotSet(AnonKey))
    else if !clientCreated then Some(NoClient)
    else if !Truthy(env, Username) then Some(NotSet(Username))
    else if !Truthy(env, Password) then Some(NotSet(Password))
    else if signInError.Some? then Some(SignInError(signInError.value))
    else None
  }

  /** `localVars.parsed`, or nothing when no `.env` was read. */
  function Parsed(dotenv: Option<Env>): Env
  {
    if dotenv.Some? then dotenv.value else map[]
  }

  /** `process.env` after the `.env` stage. */
  function LocalProcess(proc: Env, dotenv: Option<Env>): Env
  {
    proc + Parsed(dotenv)
  }

  /**
   * `envData` after the `.env` stage. Its keys are among those of
   * `process.env`, which the lemmas about the remote stage require.
   */
  function LocalData(proc: Env, dotenv: Option<Env>): (r: Env)
    ensures r.Keys <= LocalProcess(proc, dotenv).Keys
  {
    Imported(proc) + Parsed(dotenv)
  }

  /**
   * `initEnv`. `dotenv` is `localVars.parsed` (absent when no `.env` was
   * read), `clientCreated` whether `createClient` returned a client,
   * `signInError` the sign-in answer and `answer` that of the table query;
   * the last three are consulted only if execution gets that far.
   */
  method InitEnv(proc: Env, dotenv: Option<Env>, clientCreated: bool, signInError: Option<string>, answer: Answer)
    returns (r: InitResult)
    ensures r.processCount == |Imported(proc)| && r.localCount == |Parsed(dotenv)|
    ensures r.outcome == Resolved <==>
      Gate(LocalProcess(proc, dotenv), clientCreated, signInError) == None && answer.error == None
    ensures Gate(LocalProcess(proc, dotenv), clientCreated, signInError).Some? ==>
      && r.outcome == Rejected(Gate(LocalProcess(proc, dotenv), clientCreated, signInError).value)
      && r.table == None
    ensures Gate(LocalProcess(proc, dotenv), clientCreated, signInError) == None ==>
      r.table == Some(TableName(LocalProcess(proc, dotenv)))
    ensures Gate(LocalProcess(proc, dotenv), clientCreated, signInError) == None && answer.error.Some? ==>
      r.outcome == Rejected(QueryError(answer.error.value))
    ensures r.outcome.Rejected? || answer.data == None ==>
      && r.process == LocalProcess(proc, dotenv) && r.envData == LocalData(proc, dotenv)
      && r.remoteCount == 0
    ensures r.outcome == Resolved && answer.data.Some? ==>
      Merge(r.process, r.envData, r.remoteCount)
        == MergeRows(Merge(LocalProcess(proc, dotenv), LocalData(proc, dotenv), 0), answer.data.value)
  {
    var envData, processCount := ImportProcess(proc);
    var process := proc;
    var localCount := 0;
    if dotenv.Some? {
      process, envData, localCount := ApplyLocal(process, envData, dotenv.value);
    } else {
      assert process + Parsed(dotenv) == process;
      assert envData + Parsed(dotenv) == envData;
    }
    assert process == LocalProcess(proc, dotenv) && envData == LocalData(proc, dotenv);
    var gate := Gate(process, clientCreated, signInError);
    if gate.Some? {
      return InitResult(process, envData, Rejected(gate.value), processCount, localCount, 0, None);
    }
    var table := TableName(process);
    if answer.error.Some? {
      return InitResult(process, envData, Rejected(QueryError(answer.error.value)), processCount, localCount, 0, Some(table));
    }
    var remoteCount := 0;
    if answer.data.Some? {
      process, envData, remoteCount := ApplyRemote(process, envData, answer.data.value);
    }
    r := InitResult(process, envData, Resolved, processCount, localCount, remoteCount, Some(table));
  }
}
