/**
 * src/aida_agent/platform_config.py: reading the settings table page by page, resolving it by
 * scope, and applying the result to the environment.
 */
module Settings {
  import opened Wrappers
  import opened Text

  const PAGE_SIZE: nat := 200

  const SCOPES: seq<string> := ["*", "aida", "aida-agent"]

  const SETTING_KEYS: seq<string> := [
    "LIVEKIT_URL", "LIVEKIT_API_KEY", "LIVEKIT_API_SECRET", "LIVEKIT_AGENT_NAME",
    "LIVEKIT_INFERENCE_API_KEY", "LIVEKIT_INFERENCE_API_SECRET",
    "OFFICEPULSE_API_BASE_URL", "AIDA_ROUTE_TOKEN_ATTRIBUTE", "AIDA_BOOTSTRAP_TIMEOUT_SECONDS",
    "AIDA_STT_MODEL", "AIDA_LLM_MODEL", "AIDA_TTS_MODEL", "AIDA_TTS_VOICE",
    "LOGSTORE_ENABLED", "LOGSTORE_KEY_JSON", "LIVEKIT_TELEMETRY_ALLOW_PII"]

  /** A cell of a record: missing or null, a string, or another value with its str(). */
  datatype Cell = Null | Text(s: string) | Other(str: string)

  datatype Row = Row(app: Cell, key: Cell, value: Cell)

  /** Rows that take part in the duplicate check. */
  predicate Scoped(row: Row, scopes: seq<string>) {
    row.app.Text? && row.app.s in scopes && row.key.Text? && !Blank(row.key.s)
  }

  function Written(value: Cell): Option<string> {
    match value
    case Null => None
    case Text(s) => if Strip(s) != "" then Some(Strip(s)) else None
    case Other(s) => if Strip(s) != "" then Some(Strip(s)) else None
  }

  predicate Sets(row: Row, scope: string, key: string) {
    row.app == Text(scope) && row.key == Text(key) && Written(row.value).Some?
  }

  // ----- what resolution means -----

  ghost predicate Duplicate(rows: seq<Row>, scopes: seq<string>) {
    exists i, j :: 0 <= i < j < |rows| && Scoped(rows[i], scopes)
      && rows[i].app == rows[j].app && rows[i].key == rows[j].key
  }

  /** Two rows of one scope for one key that is not only white space. */
  predicate SameSetting(a: Row, b: Row, scopes: seq<string>) {
    && a.app.Text? && b.app == a.app && a.app.s in scopes
    && a.key.Text? && b.key == a.key && exists c :: c in a.key.s && !IsSpace(c)
  }

  lemma DuplicateIsSameSetting(rows: seq<Row>, scopes: seq<string>)
    ensures Duplicate(rows, scopes) <==> exists i, j :: 0 <= i < j < |rows| && SameSetting(rows[i], rows[j], scopes)
  {
    if Duplicate(rows, scopes) {
      var i, j :| 0 <= i < j < |rows| && Scoped(rows[i], scopes)
        && rows[i].app == rows[j].app && rows[i].key == rows[j].key;
      assert SameSetting(rows[i], rows[j], scopes);
    }
    if i, j :| 0 <= i < j < |rows| && SameSetting(rows[i], rows[j], scopes) {
      assert Scoped(rows[i], scopes);
    }
  }

  /** Some row sets the key in this scope. */
  ghost predicate SetIn(rows: seq<Row>, scope: string, key: string) {
    exists row :: row in rows && Sets(row, scope, key)
  }

  /** The row sets the key to v in scope s, and no row sets it in a higher scope. */
  ghost predicate ValueAt(rows: seq<Row>, scopes: seq<string>, key: string, v: string, s: int, row: Row) {
    && 0 <= s < |scopes| && row in rows && Sets(row, scopes[s], key) && Written(row.value) == Some(v)
    && forall t :: s < t < |scopes| ==> !SetIn(rows, scopes[t], key)
  }

  /** v is the trimmed value of the highest scope that has a written row for the key. */
  ghost predicate IsValue(rows: seq<Row>, scopes: seq<string>, key: string, v: string) {
    exists s, row :: ValueAt(rows, scopes, key, v, s, row)
  }

  ghost predicate IsResolution(rows: seq<Row>, scopes: seq<string>, keys: seq<string>, m: map<string, string>) {
    && (forall key :: key in m ==> key in keys && IsValue(rows, scopes, key, m[key]))
    && (forall key, v :: key in keys && IsValue(rows, scopes, key, v) ==> key in m)
  }

  ghost predicate DistinctScopes(scopes: seq<string>) {
    forall i, j :: 0 <= i < j < |scopes| ==> scopes[i] != scopes[j]
  }

  // ----- the same, written out on the cells -----

  /** str() of a cell that is not missing or null. */
  function CellText(value: Cell): string
    requires !value.Null?
  {
    if value.Text? then value.s else value.str
  }

  /** The cell says nothing: it is missing, null, or only white space. */
  predicate Unwritten(value: Cell) { value.Null? || forall c :: c in CellText(value) ==> IsSpace(c) }

  /**
   * v is the text of the row's cell without the white space at its ends, the row is of scope s,
   * and every row of a higher scope says nothing about the key.
   */
  ghost predicate HighestAt(rows: seq<Row>, scopes: seq<string>, key: string, v: string, s: int, row: Row) {
    && 0 <= s < |scopes| && row in rows && row.app == Text(scopes[s]) && row.key == Text(key)
    && v != "" && !row.value.Null? && Trimmed(CellText(row.value), v)
    && forall t, other ::
         s < t < |scopes| && other in rows && other.app == Text(scopes[t]) && other.key == Text(key) ==>
           Unwritten(other.value)
  }

  ghost predicate Highest(rows: seq<Row>, scopes: seq<string>, key: string, v: string) {
    exists s, row :: HighestAt(rows, scopes, key, v, s, row)
  }

  /** No row of any scope says anything about the key. */
  ghost predicate NoneWritten(rows: seq<Row>, scopes: seq<string>, key: string) {
    forall row :: row in rows && row.app.Text? && row.app.s in scopes && row.key == Text(key) ==> Unwritten(row.value)
  }

  lemma WrittenExactly(value: Cell)
    ensures Written(value).None? <==> Unwritten(value)
    ensures forall v :: Written(value) == Some(v) <==> v != "" && !value.Null? && Trimmed(CellText(value), v)
  {
    if !value.Null? {
      var text := CellText(value);
      StripTrims(text);
      StripBlank(text);
      forall v | Trimmed(text, v) ensures v == Strip(text) { TrimmedOnce(text, v, Strip(text)); }
    }
  }

  lemma HighestIsValue(rows: seq<Row>, scopes: seq<string>, key: string, v: string, s: int, row: Row)
    ensures HighestAt(rows, scopes, key, v, s, row) <==> ValueAt(rows, scopes, key, v, s, row)
  {
    WrittenExactly(row.value);
    forall other: Row ensures Written(other.value).None? <==> Unwritten(other.value) { WrittenExactly(other.value); }
    if HighestAt(rows, scopes, key, v, s, row) {
      forall t | s < t < |scopes| ensures !SetIn(rows, scopes[t], key) {
        assert forall other :: other in rows && Sets(other, scopes[t], key) ==> Unwritten(other.value);
      }
    }
    if ValueAt(rows, scopes, key, v, s, row) {
      forall t, other | s < t < |scopes| && other in rows && other.app == Text(scopes[t]) && other.key == Text(key)
        ensures Unwritten(other.value)
      {
        assert !SetIn(rows, scopes[t], key);
        assert !Sets(other, scopes[t], key);
      }
    }
  }

  /** Resolution in these terms. */
  ghost predicate Resolves(rows: seq<Row>, scopes: seq<string>, keys: seq<string>, m: map<string, string>) {
    && (forall key :: key in m ==> key in keys && Highest(rows, scopes, key, m[key]))
    && (forall key :: key in keys && key !in m ==> NoneWritten(rows, scopes, key))
  }

  lemma {:induction false} WrittenHasHighest(rows: seq<Row>, scopes: seq<string>, key: string)
    requires !NoneWritten(rows, scopes, key)
    ensures exists v :: IsValue(rows, scopes, key, v)
  {
    var row :| row in rows && row.app.Text? && row.app.s in scopes && row.key == Text(key) && !Unwritten(row.value);
    WrittenExactly(row.value);
    var s: nat :| s < |scopes| && scopes[s] == row.app.s;
    assert SetIn(rows, scopes[s], key) by { assert Sets(row, scopes[s], key); }
    TopScope(rows, scopes, key, s);
  }

  lemma {:induction false} TopScope(rows: seq<Row>, scopes: seq<string>, key: string, s: nat)
    requires s < |scopes| && SetIn(rows, scopes[s], key)
    ensures exists v :: IsValue(rows, scopes, key, v)
    decreases |scopes| - s
  {
    if t: nat :| s < t < |scopes| && SetIn(rows, scopes[t], key) {
      TopScope(rows, scopes, key, t);
    } else {
      var row :| row in rows && Sets(row, scopes[s], key);
      assert ValueAt(rows, scopes, key, Written(row.value).value, s, row);
      assert IsValue(rows, scopes, key, Written(row.value).value);
    }
  }

  lemma ResolvesCells(rows: seq<Row>, scopes: seq<string>, keys: seq<string>, m: map<string, string>)
    requires IsResolution(rows, scopes, keys, m)
    ensures Resolves(rows, scopes, keys, m)
  {
    forall key | key in m ensures Highest(rows, scopes, key, m[key]) {
      var s, row :| ValueAt(rows, scopes, key, m[key], s, row);
      HighestIsValue(rows, scopes, key, m[key], s, row);
    }
    forall key | key in keys && key !in m ensures NoneWritten(rows, scopes, key) {
      if !NoneWritten(rows, scopes, key) { WrittenHasHighest(rows, scopes, key); }
    }
  }

  // ----- the loops of resolve -----

  /** The first loop. */
  method CheckDuplicates(rows: seq<Row>, scopes: seq<string>) returns (duplicate: bool)
    ensures duplicate <==> Duplicate(rows, scopes)
    ensures duplicate <==> exists i, j :: 0 <= i < j < |rows| && SameSetting(rows[i], rows[j], scopes)
  {
    var seen: set<(string, string)> := {};
    var i := 0;
    while i < |rows|
      invariant 0 <= i <= |rows|
      invariant forall k :: 0 <= k < i && Scoped(rows[k], scopes) ==> (rows[k].app.s, rows[k].key.s) in seen
      invariant forall app, key :: (app, key) in seen ==>
                  exists k :: 0 <= k < i && Scoped(rows[k], scopes) && rows[k].app == Text(app)
                      && rows[k].key == Text(key)
      invariant forall j, k :: 0 <= j < k < i && Scoped(rows[j], scopes) ==>
                  !(rows[j].app == rows[k].app && rows[j].key == rows[k].key)
    {
      var row := rows[i];
      if row.app.Text? && row.app.s in scopes && row.key.Text? && Strip(row.key.s) != "" {
        StripBlank(row.key.s);
        if (row.app.s, row.key.s) in seen {
          DuplicateIsSameSetting(rows, scopes);
          return true;
        }
        seen := seen + {(row.app.s, row.key.s)};
      } else if row.key.Text? {
        StripBlank(row.key.s);
      }
      i := i + 1;
    }
    DuplicateIsSameSetting(rows, scopes);
    return false;
  }

  /** The values of the scopes before n, and of the first i rows of scope n. */
  ghost predicate SoFar(rows: seq<Row>, scopes: seq<string>, key: string, n: nat, i: nat, v: string)
    requires i <= |rows| && n <= |scopes|
  {
    || (n < |scopes| && exists k :: 0 <= k < i && Sets(rows[k], scopes[n], key) && Written(rows[k].value) == Some(v))
    || ((n < |scopes| ==> forall k :: 0 <= k < i ==> !Sets(rows[k], scopes[n], key))
        && IsValue(rows, scopes[..n], key, v))
  }

  /** Reading one more row of scope n, which does not set the key. */
  lemma SoFarSkip(rows: seq<Row>, scopes: seq<string>, key: string, n: nat, i: nat, v: string)
    requires i < |rows| && n < |scopes| && !Sets(rows[i], scopes[n], key)
    ensures SoFar(rows, scopes, key, n, i + 1, v) <==> SoFar(rows, scopes, key, n, i, v)
  {
    assert (exists k :: 0 <= k < i + 1 && Sets(rows[k], scopes[n], key) && Written(rows[k].value) == Some(v))
      <==> (exists k :: 0 <= k < i && Sets(rows[k], scopes[n], key) && Written(rows[k].value) == Some(v));
  }

  /** Reading the one row of scope n that sets the key. */
  lemma SoFarSet(rows: seq<Row>, scopes: seq<string>, key: string, n: nat, i: nat, v: string)
    requires i < |rows| && n < |scopes| && Sets(rows[i], scopes[n], key)
    requires !Duplicate(rows, scopes) && !Blank(key)
    ensures SoFar(rows, scopes, key, n, i + 1, v) <==> Written(rows[i].value) == Some(v)
  {
    assert Scoped(rows[i], scopes);
    assert forall k :: 0 <= k < i && Scoped(rows[k], scopes) ==>
        !(rows[k].app == rows[i].app && rows[k].key == rows[i].key);
    assert forall k :: 0 <= k < i && Sets(rows[k], scopes[n], key) ==> Scoped(rows[k], scopes);
  }

  /** All rows of scope n read, and some row sets the key. */
  lemma SoFarScopeSet(rows: seq<Row>, scopes: seq<string>, key: string, n: nat, v: string)
    requires n < |scopes| && SetIn(rows, scopes[n], key)
    ensures SoFar(rows, scopes, key, n, |rows|, v) <==> IsValue(rows, scopes[..n + 1], key, v)
  {
    var upto := scopes[..n + 1];
    var row :| row in rows && Sets(row, scopes[n], key);
    var j :| 0 <= j < |rows| && rows[j] == row;
    if SoFar(rows, scopes, key, n, |rows|, v) {
      var k :| 0 <= k < |rows| && Sets(rows[k], scopes[n], key) && Written(rows[k].value) == Some(v);
      assert ValueAt(rows, upto, key, v, n, rows[k]);
    }
    if IsValue(rows, upto, key, v) {
      var s, r :| ValueAt(rows, upto, key, v, s, r);
      assert s == n by { assert SetIn(rows, upto[n], key); }
      var k :| 0 <= k < |rows| && rows[k] == r;
    }
  }

  /** All rows of scope n read, and none sets the key. */
  lemma SoFarScopeUnset(rows: seq<Row>, scopes: seq<string>, key: string, n: nat, v: string)
    requires n < |scopes| && !SetIn(rows, scopes[n], key)
    ensures SoFar(rows, scopes, key, n, |rows|, v) <==> IsValue(rows, scopes[..n + 1], key, v)
  {
    var before, upto := scopes[..n], scopes[..n + 1];
    assert forall k :: 0 <= k < |rows| ==> rows[k] in rows;
    if IsValue(rows, before, key, v) {
      var s, r :| ValueAt(rows, before, key, v, s, r);
      assert forall t :: s < t < |upto| ==> t == n || upto[t] == before[t];
      assert ValueAt(rows, upto, key, v, s, r);
    }
    if IsValue(rows, upto, key, v) {
      var s, r :| ValueAt(rows, upto, key, v, s, r);
      assert s != n;
      assert forall t :: s < t < |before| ==> upto[t] == before[t];
      assert ValueAt(rows, before, key, v, s, r);
    }
  }

  lemma SoFarScope(rows: seq<Row>, scopes: seq<string>, key: string, n: nat, v: string)
    requires n < |scopes|
    ensures SoFar(rows, scopes, key, n, |rows|, v) <==> IsValue(rows, scopes[..n + 1], key, v)
  {
    if SetIn(rows, scopes[n], key) {
      SoFarScopeSet(rows, scopes, key, n, v);
    } else {
      SoFarScopeUnset(rows, scopes, key, n, v);
    }
  }

  /** m holds exactly the values so far. */
  ghost predicate Holds(rows: seq<Row>, scopes: seq<string>, keys: seq<string>, n: nat, i: nat, m: map<string, string>)
    requires i <= |rows| && n <= |scopes|
  {
    && (forall key :: key in m ==> key in keys && SoFar(rows, scopes, key, n, i, m[key]))
    && (forall key, v :: key in keys && SoFar(rows, scopes, key, n, i, v) ==> key in m && m[key] == v)
  }

  lemma HoldsSkip(rows: seq<Row>, scopes: seq<string>, keys: seq<string>, n: nat, i: nat, m: map<string, string>)
    requires i < |rows| && n < |scopes| && Holds(rows, scopes, keys, n, i, m)
    requires forall key :: key in keys ==> !Sets(rows[i], scopes[n], key)
    ensures Holds(rows, scopes, keys, n, i + 1, m)
  {
    forall key | key in m ensures SoFar(rows, scopes, key, n, i + 1, m[key]) {
      SoFarSkip(rows, scopes, key, n, i, m[key]);
    }
    var j := i + 1;
    forall key, v | key in keys && SoFar(rows, scopes, key, n, j, v) ensures key in m && m[key] == v {
      SoFarSkip(rows, scopes, key, n, i, v);
    }
  }

  lemma HoldsSet(rows: seq<Row>, scopes: seq<string>, keys: seq<string>, n: nat, i: nat, m: map<string, string>,
                 key: string)
    requires i < |rows| && n < |scopes| && Holds(rows, scopes, keys, n, i, m) && !Duplicate(rows, scopes)
    requires key in keys && !Blank(key) && Sets(rows[i], scopes[n], key)
    ensures Holds(rows, scopes, keys, n, i + 1, m[key := Written(rows[i].value).value])
  {
    var next := m[key := Written(rows[i].value).value];
    forall other | other in next ensures other in keys && SoFar(rows, scopes, other, n, i + 1, next[other]) {
      if other == key { SoFarSet(rows, scopes, key, n, i, next[key]); }
      else { SoFarSkip(rows, scopes, other, n, i, m[other]); }
    }
    var j := i + 1;
    forall other, v | other in keys && SoFar(rows, scopes, other, n, j, v) ensures other in next && next[other] == v {
      if other == key { SoFarSet(rows, scopes, key, n, i, v); }
      else { SoFarSkip(rows, scopes, other, n, i, v); }
    }
  }

  lemma SoFarNext(rows: seq<Row>, scopes: seq<string>, key: string, n: nat, v: string)
    requires n < |scopes|
    ensures SoFar(rows, scopes, key, n + 1, 0, v) <==> SoFar(rows, scopes, key, n, |rows|, v)
  {
    SoFarScope(rows, scopes, key, n, v);
  }

  lemma HoldsScope(rows: seq<Row>, scopes: seq<string>, keys: seq<string>, n: nat, m: map<string, string>)
    requires n < |scopes| && Holds(rows, scopes, keys, n, |rows|, m)
    ensures Holds(rows, scopes, keys, n + 1, 0, m)
  {
    forall key | key in m ensures SoFar(rows, scopes, key, n + 1, 0, m[key]) {
      SoFarNext(rows, scopes, key, n, m[key]);
    }
    var after := n + 1;
    forall key, v | key in keys && SoFar(rows, scopes, key, after, 0, v) ensures key in m && m[key] == v {
      SoFarNext(rows, scopes, key, n, v);
    }
  }

  lemma SoFarAll(rows: seq<Row>, scopes: seq<string>, key: string, v: string)
    ensures SoFar(rows, scopes, key, |scopes|, 0, v) <==> IsValue(rows, scopes, key, v)
  {
    assert scopes[..|scopes|] == scopes;
  }

  lemma HoldsAll(rows: seq<Row>, scopes: seq<string>, keys: seq<string>, m: map<string, string>)
    requires Holds(rows, scopes, keys, |scopes|, 0, m)
    ensures IsResolution(rows, scopes, keys, m)
  {
    forall key | key in m ensures IsValue(rows, scopes, key, m[key]) {
      SoFarAll(rows, scopes, key, m[key]);
    }
    forall key, v | key in keys && IsValue(rows, scopes, key, v) ensures key in m {
      SoFarAll(rows, scopes, key, v);
    }
  }

  /** The second loop. */
  method Collect(rows: seq<Row>, scopes: seq<string>, keys: seq<string>) returns (values: map<string, string>)
    requires !Duplicate(rows, scopes) && forall key :: key in keys ==> !Blank(key)
    ensures IsResolution(rows, scopes, keys, values) && Resolves(rows, scopes, keys, values)
  {
    values := map[];
    var n := 0;
    while n < |scopes|
      invariant 0 <= n <= |scopes| && Holds(rows, scopes, keys, n, 0, values)
    {
      var i := 0;
      while i < |rows|
        invariant 0 <= i <= |rows| && Holds(rows, scopes, keys, n, i, values)
      {
        var row := rows[i];
        if row.app == Text(scopes[n]) && row.key.Text? && row.key.s in keys && Written(row.value).Some? {
          HoldsSet(rows, scopes, keys, n, i, values, row.key.s);
          values := values[row.key.s := Written(row.value).value];
        } else {
          HoldsSkip(rows, scopes, keys, n, i, values);
        }
        i := i + 1;
      }
      HoldsScope(rows, scopes, keys, n, values);
      n := n + 1;
    }
    HoldsAll(rows, scopes, keys, values);
    ResolvesCells(rows, scopes, keys, values);
  }

  /** resolve: fails exactly on a repeated scoped key, else every key has its highest written value. */
  method Resolve(rows: seq<Row>, scopes: seq<string>, keys: seq<string>)
    returns (r: Result<map<string, string>, string>)
    requires forall key :: key in keys ==> !Blank(key)
    ensures r.Failure? <==> Duplicate(rows, scopes)
    ensures r.Failure? <==> exists i, j :: 0 <= i < j < |rows| && SameSetting(rows[i], rows[j], scopes)
    ensures r.Success? ==> IsResolution(rows, scopes, keys, r.value) && Resolves(rows, scopes, keys, r.value)
  {
    var duplicate := CheckDuplicates(rows, scopes);
    if duplicate {
      return Failure("duplicate PlatformConfig setting");
    }
    var values := Collect(rows, scopes, keys);
    return Success(values);
  }

  // ----- resolution does not depend on the order of the rows -----

  /** Without a duplicate a key has one value. */
  lemma ValueUnique(rows: seq<Row>, scopes: seq<string>, key: string, v: string, w: string)
    requires !Duplicate(rows, scopes) && !Blank(key)
    requires IsValue(rows, scopes, key, v) && IsValue(rows, scopes, key, w)
    ensures v == w
  {
    var s, a :| ValueAt(rows, scopes, key, v, s, a);
    var t, b :| ValueAt(rows, scopes, key, w, t, b);
    assert SetIn(rows, scopes[s], key) && SetIn(rows, scopes[t], key);
    assert s == t;
    var i :| 0 <= i < |rows| && rows[i] == a;
    var j :| 0 <= j < |rows| && rows[j] == b;
    assert Scoped(rows[i], scopes) && Scoped(rows[j], scopes);
  }

  /** A repeated scoped key, said of the rows as a bag. */
  ghost predicate DuplicateIn(m: multiset<Row>, scopes: seq<string>) {
    exists a, b :: a in m && b in m && Scoped(a, scopes) && a.app == b.app && a.key == b.key && (a != b || m[a] >= 2)
  }

  lemma {:induction false} TwiceInSeq(rows: seq<Row>, a: Row)
    ensures multiset(rows)[a] >= 1 <==> a in rows
    ensures multiset(rows)[a] >= 2 <==> exists i, j :: 0 <= i < j < |rows| && rows[i] == a && rows[j] == a
  {
    if rows != [] {
      var n := |rows| - 1;
      assert rows == rows[..n] + [rows[n]];
      TwiceInSeq(rows[..n], a);
      if rows[n] == a && a in rows[..n] {
        var i :| 0 <= i < n && rows[..n][i] == a;
        assert rows[i] == a && rows[n] == a;
      }
      if exists i, j :: 0 <= i < j < n && rows[..n][i] == a && rows[..n][j] == a {
        var i, j :| 0 <= i < j < n && rows[..n][i] == a && rows[..n][j] == a;
        assert rows[i] == a && rows[j] == a;
      }
      if exists i, j :: 0 <= i < j < |rows| && rows[i] == a && rows[j] == a {
        var i, j :| 0 <= i < j < |rows| && rows[i] == a && rows[j] == a;
        assert rows[..n][i] == a;
        if j < n { assert rows[..n][j] == a; }
      }
    }
  }

  lemma DuplicateIsOfBag(rows: seq<Row>, scopes: seq<string>)
    ensures Duplicate(rows, scopes) <==> DuplicateIn(multiset(rows), scopes)
  {
    if Duplicate(rows, scopes) { DuplicateInBag(rows, scopes); }
    if DuplicateIn(multiset(rows), scopes) { BagDuplicate(rows, scopes); }
  }

  lemma DuplicateInBag(rows: seq<Row>, scopes: seq<string>)
    requires Duplicate(rows, scopes)
    ensures DuplicateIn(multiset(rows), scopes)
  {
    var i, j :| 0 <= i < j < |rows| && Scoped(rows[i], scopes) && rows[i].app == rows[j].app
        && rows[i].key == rows[j].key;
    var a, b := rows[i], rows[j];
    TwiceInSeq(rows, a);
    TwiceInSeq(rows, b);
    assert a in multiset(rows) && b in multiset(rows);
  }

  lemma BagDuplicate(rows: seq<Row>, scopes: seq<string>)
    requires DuplicateIn(multiset(rows), scopes)
    ensures Duplicate(rows, scopes)
  {
    var a, b :| a in multiset(rows) && b in multiset(rows) && Scoped(a, scopes) && a.app == b.app && a.key == b.key
                && (a != b || multiset(rows)[a] >= 2);
    TwiceInSeq(rows, a);
    TwiceInSeq(rows, b);
    if a != b {
      var i :| 0 <= i < |rows| && rows[i] == a;
      var j :| 0 <= j < |rows| && rows[j] == b;
      assert Scoped(rows[i], scopes) && Scoped(rows[j], scopes);
    }
  }

  /** Any order of the rows fails alike, or resolves alike. */
  lemma OrderDoesNotMatter(rows: seq<Row>, other: seq<Row>, scopes: seq<string>, keys: seq<string>)
    requires multiset(rows) == multiset(other)
    requires forall key :: key in keys ==> !Blank(key)
    ensures Duplicate(rows, scopes) <==> Duplicate(other, scopes)
    ensures !Duplicate(rows, scopes) ==>
              forall m, n :: IsResolution(rows, scopes, keys, m) && IsResolution(other, scopes, keys, n) ==> m == n
  {
    DuplicateIsOfBag(rows, scopes);
    DuplicateIsOfBag(other, scopes);
    forall row ensures row in rows <==> row in other {
      assert row in multiset(rows) <==> row in multiset(other);
    }
    forall m, n | !Duplicate(rows, scopes) && IsResolution(rows, scopes, keys, m)
        && IsResolution(other, scopes, keys, n)
      ensures m == n
    {
      SameValues(rows, other, scopes, keys, m, n);
    }
  }

  lemma SameValue(rows: seq<Row>, other: seq<Row>, scopes: seq<string>, key: string, v: string)
    requires forall row :: row in rows <==> row in other
    requires IsValue(rows, scopes, key, v)
    ensures IsValue(other, scopes, key, v)
  {
    var s, row :| ValueAt(rows, scopes, key, v, s, row);
    assert ValueAt(other, scopes, key, v, s, row);
  }

  lemma SameValues(rows: seq<Row>, other: seq<Row>, scopes: seq<string>, keys: seq<string>,
                   m: map<string, string>, n: map<string, string>)
    requires forall row :: row in rows <==> row in other
    requires !Duplicate(rows, scopes) && forall key :: key in keys ==> !Blank(key)
    requires IsResolution(rows, scopes, keys, m) && IsResolution(other, scopes, keys, n)
    ensures m == n
  {
    forall key ensures Agree(m, n, key) {
      SameAt(rows, other, scopes, keys, m, n, key);
    }
    AgreeAll(m, n);
  }

  ghost predicate Agree(m: map<string, string>, n: map<string, string>, key: string) {
    (key in m <==> key in n) && (key in m ==> m[key] == n[key])
  }

  lemma AgreeAll(m: map<string, string>, n: map<string, string>)
    requires forall key :: Agree(m, n, key)
    ensures m == n
  {
    assert forall key :: key in m ==> Agree(m, n, key);
    assert forall key :: key in n ==> Agree(m, n, key);
  }

  lemma SameAt(rows: seq<Row>, other: seq<Row>, scopes: seq<string>, keys: seq<string>,
               m: map<string, string>, n: map<string, string>, key: string)
    requires forall row :: row in rows <==> row in other
    requires !Duplicate(rows, scopes) && forall key :: key in keys ==> !Blank(key)
    requires IsResolution(rows, scopes, keys, m) && IsResolution(other, scopes, keys, n)
    ensures Agree(m, n, key)
  {
    if key in m {
      SameValue(rows, other, scopes, key, m[key]);
      assert key in n;
      SameValue(other, rows, scopes, key, n[key]);
      ValueUnique(rows, scopes, key, m[key], n[key]);
    } else if key in n {
      SameValue(other, rows, scopes, key, n[key]);
    }
  }

  /** The agent's own scopes are distinct, and its keys are not blank. */
  lemma OwnScopesAndKeys()
    ensures DistinctScopes(SCOPES) && forall key :: key in SETTING_KEYS ==> !Blank(key)
  {
    forall i | 0 <= i < |SETTING_KEYS| ensures !Blank(SETTING_KEYS[i]) {
      assert !IsSpace(SETTING_KEYS[i][0]);
    }
  }

  // ----- paging -----

  /** A records request: the API failed, or gave a list and perhaps isLastPage. */
  datatype Response = Unavailable | Page(list: seq<Row>, last: Option<bool>)

  function Slice(table: seq<Row>, offset: nat): seq<Row> {
    if offset >= |table| then []
    else if offset + PAGE_SIZE <= |table| then table[offset..offset + PAGE_SIZE]
    else table[offset..]
  }

  /** A store that answers from this table, and calls no page last while rows follow it. */
  ghost predicate Serves(api: nat -> Response, table: seq<Row>) {
    forall offset: nat ::
      api(offset).Page? ==>
        && api(offset).list == Slice(table, offset)
        && (api(offset).last == Some(true) ==> offset + PAGE_SIZE >= |table|)
  }

  /** Some page the loop gets to is unavailable: no page before it was called last. */
  ghost predicate Fails(api: nat -> Response, table: seq<Row>) {
    exists k: nat :: k * PAGE_SIZE <= |table| && api(k * PAGE_SIZE).Unavailable? && Continues(api, k)
  }

  ghost predicate Continues(api: nat -> Response, k: nat) {
    forall j: nat :: j < k ==> api(j * PAGE_SIZE).Page? && api(j * PAGE_SIZE).last != Some(true)
  }

  /** The paging loop of fetch: exactly the table's rows, unless a page it gets to is unavailable. */
  method FetchRows(api: nat -> Response, ghost table: seq<Row>) returns (r: Result<seq<Row>, string>)
    requires Serves(api, table)
    ensures r.Success? ==> r.value == table
    ensures r.Failure? <==> Fails(api, table)
  {
    var rows: seq<Row> := [];
    var offset: nat := 0;
    ghost var k: nat := 0;
    while true
      invariant offset == k * PAGE_SIZE && offset <= |table| && rows == table[..offset]
      invariant Continues(api, k)
      decreases |table| + PAGE_SIZE - offset
    {
      var page := api(offset);
      if page.Unavailable? {
        return Failure("NocoDB could not be reached");
      }
      rows := rows + page.list;
      if |page.list| < PAGE_SIZE || page.last == Some(true) {
        assert rows == table;
        forall m: nat | m * PAGE_SIZE <= |table| && Continues(api, m) ensures api(m * PAGE_SIZE).Page? {
          NothingFollows(api, table, k, m);
        }
        return Success(rows);
      }
      offset := offset + PAGE_SIZE;
      k := k + 1;
    }
  }

  /** When page k ended the table, no page the loop gets to was unavailable. */
  lemma NothingFollows(api: nat -> Response, table: seq<Row>, k: nat, m: nat)
    requires Serves(api, table) && Continues(api, k) && api(k * PAGE_SIZE).Page?
    requires |api(k * PAGE_SIZE).list| < PAGE_SIZE || api(k * PAGE_SIZE).last == Some(true)
    requires m * PAGE_SIZE <= |table| && Continues(api, m)
    ensures api(m * PAGE_SIZE).Page?
  {
  }

  // ----- apply -----

  /** What the process environment can hold: putenv takes no NUL. */
  predicate Holdable(value: string) { '\0' !in value }

  /** Some key resolves to a value that the environment cannot hold. */
  ghost predicate Refused(rows: seq<Row>, scopes: seq<string>, keys: seq<string>) {
    exists key, v :: key in keys && IsValue(rows, scopes, key, v) && !Holdable(v)
  }

  lemma RefusedIsInResolution(rows: seq<Row>, scopes: seq<string>, keys: seq<string>, m: map<string, string>)
    requires IsResolution(rows, scopes, keys, m)
    requires !Duplicate(rows, scopes) && forall key :: key in keys ==> !Blank(key)
    ensures Refused(rows, scopes, keys) <==> exists key :: key in m && !Holdable(m[key])
  {
    if Refused(rows, scopes, keys) {
      var key, v :| key in keys && IsValue(rows, scopes, key, v) && !Holdable(v);
      ValueUnique(rows, scopes, key, v, m[key]);
    }
  }

  /** The setting variables of an environment, and the others. */
  function SettingVars(keys: seq<string>, vars: map<string, string>): map<string, string> {
    map key | key in vars && key in keys :: vars[key]
  }

  function OtherVars(keys: seq<string>, vars: map<string, string>): map<string, string> {
    map key | key in vars && key !in keys :: vars[key]
  }

  class Environment {
    var vars: map<string, string>

    constructor (vars: map<string, string>)
      ensures this.vars == vars
    {
      this.vars := vars;
    }

    /** The loop that pops every setting key. */
    method Remove(keys: seq<string>)
      modifies this
      ensures forall key :: key in vars <==> key in old(vars) && key !in keys
      ensures forall key :: key in vars ==> vars[key] == old(vars)[key]
    {
      var i := 0;
      while i < |keys|
        invariant 0 <= i <= |keys|
        invariant forall key :: key in vars <==> key in old(vars) && key !in keys[..i]
        invariant forall key :: key in vars ==> vars[key] == old(vars)[key]
      {
        vars := vars - {keys[i]};
        i := i + 1;
      }
      assert keys[..i] == keys;
    }

    /**
     * update with values of setting keys, all of which have been removed.  It puts one value after
     * another and stops at the first that the environment refuses.
     */
    method Update(keys: seq<string>, values: map<string, string>) returns (ok: bool)
      requires forall key :: key in values ==> key in keys
      requires forall key :: key in vars ==> key !in keys
      modifies this
      ensures OtherVars(keys, vars) == OtherVars(keys, old(vars))
      ensures ok <==> forall key :: key in values ==> Holdable(values[key])
      ensures ok ==> SettingVars(keys, vars) == values
      ensures forall key :: key in SettingVars(keys, vars) ==>
                key in values && vars[key] == values[key] && Holdable(vars[key])
    {
      var rest := values.Keys;
      while rest != {}
        invariant rest <= values.Keys
        invariant forall key :: key in values.Keys - rest ==>
                    key in vars && vars[key] == values[key] && Holdable(vars[key])
        invariant forall key :: key in vars <==> key in old(vars) || key in values.Keys - rest
        invariant forall key :: key in old(vars) ==> vars[key] == old(vars)[key]
        decreases rest
      {
        var key :| key in rest;
        if !Holdable(values[key]) {
          return false;
        }
        vars := vars[key := values[key]];
        rest := rest - {key};
      }
      return true;
    }

    /** The last two statements of apply. */
    method Replace(keys: seq<string>, values: map<string, string>) returns (ok: bool)
      requires forall key :: key in values ==> key in keys
      modifies this
      ensures OtherVars(keys, vars) == OtherVars(keys, old(vars))
      ensures ok <==> !exists key :: key in values && !Holdable(values[key])
      ensures ok ==> SettingVars(keys, vars) == values
      ensures forall key :: key in SettingVars(keys, vars) ==>
                key in values && vars[key] == values[key] && Holdable(vars[key])
    {
      Remove(keys);
      ok := Update(keys, values);
    }

    /**
     * apply on the process environment: the settings become exactly the store's, every other
     * variable stays, and a store that cannot be read changes nothing.  A value with a NUL is
     * found only after the old settings are gone: then the call fails, and what settings there
     * are come from the store.  configured: the store's address and token are in the environment
     * and its table was found.
     */
    method Apply(configured: bool, api: nat -> Response, ghost table: seq<Row>, scopes: seq<string>, keys: seq<string>)
      returns (applied: bool)
      requires Serves(api, table) && forall key :: key in keys ==> !Blank(key)
      modifies this
      ensures OtherVars(keys, vars) == OtherVars(keys, old(vars))
      ensures applied <==>
                configured && !Fails(api, table) && !Duplicate(table, scopes) && !Refused(table, scopes, keys)
      ensures applied ==> IsResolution(table, scopes, keys, SettingVars(keys, vars))
      ensures applied ==> Resolves(table, scopes, keys, SettingVars(keys, vars))
      ensures !configured || Fails(api, table) || Duplicate(table, scopes) ==> vars == old(vars)
      ensures configured && !Fails(api, table) && !Duplicate(table, scopes) ==>
                forall key :: key in SettingVars(keys, vars) ==>
                  IsValue(table, scopes, key, vars[key]) && Holdable(vars[key])
    {
      if !configured {
        return false;
      }
      var rows := FetchRows(api, table);
      if rows.Failure? {
        return false;
      }
      var values := Resolve(rows.value, scopes, keys);
      if values.Failure? {
        return false;
      }
      RefusedIsInResolution(table, scopes, keys, values.value);
      applied := Replace(keys, values.value);
    }
  }

  // ----- a value the environment refuses -----

  const VOICE: string := "AIDA_TTS_VOICE"
  const NUL_ROW := Row(Text("aida"), Text(VOICE), Text("a\0b"))

  /** One page with one row. */
  function OnePage(offset: nat): Response {
    Page(Slice([NUL_ROW], offset), Some(true))
  }

  /** A single row with a NUL in its value is no duplicate, and resolves to a refused value. */
  lemma NulIsRefused()
    ensures !Duplicate([NUL_ROW], SCOPES) && Refused([NUL_ROW], SCOPES, SETTING_KEYS)
  {
    var v := "a\0b";
    assert !IsSpace(v[0]) && !IsSpace(v[2]);
    assert Strip(v) == v && v[1] == '\0';
    assert SCOPES[1] == "aida" && SETTING_KEYS[12] == VOICE;
    forall t | 1 < t < |SCOPES| ensures !SetIn([NUL_ROW], SCOPES[t], VOICE) {
      assert SCOPES[t] == "aida-agent" && |SCOPES[t]| != |"aida"|;
    }
    assert NUL_ROW in [NUL_ROW];
    assert ValueAt([NUL_ROW], SCOPES, VOICE, v, 1, NUL_ROW);
    assert IsValue([NUL_ROW], SCOPES, VOICE, v);
  }

  /** Such a store makes apply fail and lose the setting the environment had. */
  method RefusalLosesSetting(env: Environment)
    requires VOICE in env.vars
    modifies env
    ensures VOICE !in env.vars && OtherVars(SETTING_KEYS, env.vars) == OtherVars(SETTING_KEYS, old(env.vars))
  {
    NulIsRefused();
    OwnScopesAndKeys();
    var applied := env.Apply(true, OnePage, [NUL_ROW], SCOPES, SETTING_KEYS);
    assert SETTING_KEYS[12] == VOICE;
    forall v ensures IsValue([NUL_ROW], SCOPES, VOICE, v) ==> !Holdable(v) {
      VoiceRefused(v);
    }
  }

  /** The only value that this store resolves the key to is the refused one. */
  lemma VoiceRefused(v: string)
    ensures IsValue([NUL_ROW], SCOPES, VOICE, v) ==> !Holdable(v)
  {
    var nul := "a\0b";
    assert !IsSpace(nul[0]) && !IsSpace(nul[2]) && nul[1] == '\0';
    assert Strip(nul) == nul;
    if IsValue([NUL_ROW], SCOPES, VOICE, v) {
      var s, row :| ValueAt([NUL_ROW], SCOPES, VOICE, v, s, row);
      assert row == NUL_ROW;
    }
  }
}
