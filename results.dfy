/**
 * Outcomes shared by both calculators: the exceptions the Python code raises,
 * modelled as values, and the "catch and continue" filter that turns a
 * sequence of per-row outcomes into the rows of a result table.
 */
module Results {

  datatype Option<+T> = None | Some(value: T)

  /** The exceptions the two calculators can raise. */
  datatype Error =
    | KeyMissing(key: string)                                    // KeyError(key)
    | ScenarioNotFound(scenario: string, available: set<string>) // KeyError naming the valid scenarios
    | ScenarioFieldMissing(scenario: string, key: string)        // KeyError naming scenario and field
    | DivisionByZero                                             // ZeroDivisionError
    | NotAnInteger(key: string)                                  // TypeError: a count that is not an int
  {
    /** The errors that Python reports as a `KeyError`. */
    predicate IsKeyError() {
      KeyMissing? || ScenarioNotFound? || ScenarioFieldMissing?
    }
  }

  datatype Result<+T> = Ok(value: T) | Err(error: Error)

  /** The values of the successful outcomes, in order: the rows a sweep keeps. */
  function Kept<T>(outcomes: seq<Result<T>>): seq<T>
  {
    if outcomes == [] then []
    else (if outcomes[0].Ok? then [outcomes[0].value] else []) + Kept(outcomes[1..])
  }

  /** The errors of the failed outcomes, in order: the rows a sweep skips. */
  function Skipped<T>(outcomes: seq<Result<T>>): seq<Error>
  {
    if outcomes == [] then []
    else (if outcomes[0].Err? then [outcomes[0].error] else []) + Skipped(outcomes[1..])
  }

  /** Filtering preserves order: it distributes over concatenation. */
  lemma {:induction false} KeptAppend<T>(a: seq<Result<T>>, b: seq<Result<T>>)
    ensures Kept(a + b) == Kept(a) + Kept(b)
  {
    if a == [] {
      assert a + b == b;
    } else {
      var head := if a[0].Ok? then [a[0].value] else [];
      assert (a + b)[0] == a[0];
      assert (a + b)[1..] == a[1..] + b;
      assert Kept(a + b) == head + Kept(a[1..] + b);
      KeptAppend(a[1..], b);
      assert Kept(a) == head + Kept(a[1..]);
    }
  }

  /** One success gives one row, one failure gives none. */
  lemma KeptSingle<T>(o: Result<T>)
    ensures Kept([o]) == if o.Ok? then [o.value] else []
  {
    assert [o][1..] == [];
  }

  /** Every outcome is either kept as a row or skipped, never both. */
  lemma {:induction false} KeptPlusSkipped<T>(outcomes: seq<Result<T>>)
    ensures |Kept(outcomes)| + |Skipped(outcomes)| == |outcomes|
  {
    if outcomes != [] {
      KeptPlusSkipped(outcomes[1..]);
    }
  }

  /** A value is a row exactly when some outcome produced it. */
  lemma {:induction false} KeptMembership<T>(outcomes: seq<Result<T>>, x: T)
    ensures x in Kept(outcomes) <==> exists i :: 0 <= i < |outcomes| && outcomes[i] == Ok(x)
  {
    if outcomes != [] {
      KeptMembership(outcomes[1..], x);
      if exists i :: 0 <= i < |outcomes[1..]| && outcomes[1..][i] == Ok(x) {
        var i :| 0 <= i < |outcomes[1..]| && outcomes[1..][i] == Ok(x);
        assert outcomes[i + 1] == Ok(x);
      }
      if exists i :: 0 <= i < |outcomes| && outcomes[i] == Ok(x) {
        var i :| 0 <= i < |outcomes| && outcomes[i] == Ok(x);
        if i > 0 {
          assert outcomes[1..][i - 1] == Ok(x);
        }
      }
    }
  }

  /** Which exceptions a batch operation's `except` clause catches and skips. */
  datatype Handler = CatchKeyErrors | CatchKeyAndZeroDivisionErrors

  predicate Catches(h: Handler, e: Error)
  {
    match h
    case CatchKeyErrors => e.IsKeyError()
    case CatchKeyAndZeroDivisionErrors => e.IsKeyError() || e == DivisionByZero
  }

  /** An outcome whose error the handler does not catch: it ends the batch. */
  predicate Fatal<T>(h: Handler, o: Result<T>)
  {
    o.Err? && !Catches(h, o.error)
  }

  /**
   * A batch's result from its outcomes in order: the first error the handler
   * does not catch, or else the values of the outcomes that succeeded.
   */
  function Collect<T>(h: Handler, outcomes: seq<Result<T>>): (r: Result<seq<T>>)
    ensures r.Err? ==> !Catches(h, r.error)
    decreases |outcomes|
  {
    if outcomes == [] then Ok([])
    else
      match Collect(h, outcomes[..|outcomes| - 1])
      case Err(e) => Err(e)
      case Ok(rows) =>
        var o := outcomes[|outcomes| - 1];
        if Fatal(h, o) then Err(o.error)
        else Ok(rows + if o.Ok? then [o.value] else [])
  }

  /** Once the batch has stopped, later outcomes change nothing. */
  lemma {:induction false} CollectStops<T>(h: Handler, a: seq<Result<T>>, b: seq<Result<T>>)
    requires Collect(h, a).Err?
    ensures Collect(h, a + b) == Collect(h, a)
    decreases |b|
  {
    if b == [] {
      assert a + b == a;
    } else {
      var front := b[..|b| - 1];
      assert (a + b)[..|a + b| - 1] == a + front;
      CollectStops(h, a, front);
    }
  }

  /** One more outcome: a fatal one ends the batch, a success adds its value, a caught error adds nothing. */
  lemma CollectStep<T>(h: Handler, outcomes: seq<Result<T>>, o: Result<T>, rows: seq<T>)
    requires Collect(h, outcomes) == Ok(rows)
    ensures Collect(h, outcomes + [o]) ==
      if Fatal(h, o) then Err(o.error) else Ok(rows + if o.Ok? then [o.value] else [])
  {
    assert (outcomes + [o])[..|outcomes|] == outcomes;
  }

  /** A batch that has stopped within a prefix of its outcomes returns what it had then. */
  lemma CollectPrefixStops<T>(h: Handler, outcomes: seq<Result<T>>, prefix: seq<Result<T>>)
    requires prefix <= outcomes && Collect(h, prefix).Err?
    ensures Collect(h, outcomes) == Collect(h, prefix)
  {
    assert prefix + outcomes[|prefix|..] == outcomes;
    CollectStops(h, prefix, outcomes[|prefix|..]);
  }

  /**
   * What a batch returns: an error exactly when some outcome is fatal, and
   * then the error of the first fatal outcome; otherwise the values of the
   * successful outcomes, in order.
   */
  lemma {:induction false} CollectMeaning<T>(h: Handler, outcomes: seq<Result<T>>)
    ensures Collect(h, outcomes).Err? <==> exists k :: 0 <= k < |outcomes| && Fatal(h, outcomes[k])
    ensures Collect(h, outcomes).Err? ==>
      exists k :: 0 <= k < |outcomes| && Fatal(h, outcomes[k]) && outcomes[k].error == Collect(h, outcomes).error
        && forall m :: 0 <= m < k ==> !Fatal(h, outcomes[m])
    ensures Collect(h, outcomes).Ok? ==> Collect(h, outcomes).value == Kept(outcomes)
    decreases |outcomes|
  {
    if outcomes != [] {
      var n := |outcomes|;
      var front, o := outcomes[..n - 1], outcomes[n - 1];
      CollectMeaning(h, front);
      assert forall k :: 0 <= k < n - 1 ==> front[k] == outcomes[k];
      if Collect(h, front).Ok? {
        assert outcomes == front + [o];
        KeptAppend(front, [o]);
        KeptSingle(o);
        if Fatal(h, o) {
          assert forall m :: 0 <= m < n - 1 ==> !Fatal(h, outcomes[m]);
        }
      } else {
        var k :| 0 <= k < n - 1 && Fatal(h, front[k]) && front[k].error == Collect(h, front).error
          && forall m :: 0 <= m < k ==> !Fatal(h, front[m]);
        assert Fatal(h, outcomes[k]);
      }
    }
  }

  /** The (parameter, value) points of one parameter's list of values, in order. */
  function Pairs<V>(parameter: string, values: seq<V>): (r: seq<(string, V)>)
    ensures |r| == |values|
    ensures forall j :: 0 <= j < |values| ==> r[j] == (parameter, values[j])
  {
    if values == [] then []
    else Pairs(parameter, values[..|values| - 1]) + [(parameter, values[|values| - 1])]
  }

  /**
   * The points of a sensitivity sweep over a mapping from parameter names to
   * lists of values, taken in the mapping's order.
   */
  function Grid<V>(variations: seq<(string, seq<V>)>): seq<(string, V)>
  {
    if variations == [] then []
    else
      var last := variations[|variations| - 1];
      Grid(variations[..|variations| - 1]) + Pairs(last.0, last.1)
  }

  lemma AppendAssociates<T>(x: seq<T>, y: seq<T>, z: seq<T>)
    ensures (x + y) + z == x + (y + z)
  {
  }

  /** The sweep is parameter-major: the first parameter's points come first. */
  lemma GridParameterMajor<V>(variations: seq<(string, seq<V>)>)
    requires variations != []
    ensures Grid(variations) == Pairs(variations[0].0, variations[0].1) + Grid(variations[1..])
  {
    var head, rest := variations[..1], variations[1..];
    assert Grid(head) == Pairs(variations[0].0, variations[0].1) by {
      assert head[..0] == [];
      assert head[0] == variations[0];
    }
    assert Grid(variations) == Grid(head) + Grid(rest) by {
      assert variations == head + rest;
      GridAppend(head, rest);
    }
  }

  /** The sweep of two consecutive parameter lists is the two sweeps, one after the other. */
  lemma {:induction false} GridAppend<V>(a: seq<(string, seq<V>)>, b: seq<(string, seq<V>)>)
    ensures Grid(a + b) == Grid(a) + Grid(b)
    decreases |b|
  {
    if b == [] {
      assert a + b == a;
    } else {
      var front := b[..|b| - 1];
      var last := b[|b| - 1];
      var points := Pairs(last.0, last.1);
      assert (a + b)[..|a + b| - 1] == a + front;
      assert (a + b)[|a + b| - 1] == last;
      assert Grid(a + b) == Grid(a + front) + points;
      assert Grid(b) == Grid(front) + points;
      GridAppend(a, front);
      AppendAssociates(Grid(a), Grid(front), points);
    }
  }

  /** One more value of the same parameter adds one point at the end. */
  lemma PointsStep<V>(done: seq<(string, V)>, parameter: string, values: seq<V>, j: nat)
    requires j < |values|
    ensures done + Pairs(parameter, values[..j + 1]) == (done + Pairs(parameter, values[..j])) + [(parameter, values[j])]
  {
    assert values[..j + 1][..j] == values[..j];
    assert Pairs(parameter, values[..j + 1]) == Pairs(parameter, values[..j]) + [(parameter, values[j])];
  }

  /** One more parameter adds all its points at the end. */
  lemma GridStep<V>(variations: seq<(string, seq<V>)>, i: nat)
    requires i < |variations|
    ensures Grid(variations[..i + 1]) == Grid(variations[..i]) + Pairs(variations[i].0, variations[i].1)
  {
    assert variations[..i + 1][..i] == variations[..i];
  }

  /** A prefix of a parameter's values gives a prefix of its points. */
  lemma PairsPrefix<V>(parameter: string, values: seq<V>, j: nat)
    requires j <= |values|
    ensures Pairs(parameter, values[..j]) == Pairs(parameter, values)[..j]
  {
  }

  /** A prefix reaching into the second half of a concatenation. */
  lemma PrefixOfAppend<T>(a: seq<T>, b: seq<T>, j: nat)
    requires j <= |b|
    ensures (a + b)[..|a| + j] == a + b[..j]
  {
    assert forall k :: 0 <= k < |a| ==> (a + b)[..|a| + j][k] == a[k];
    assert forall k :: 0 <= k < j ==> (a + b)[..|a| + j][|a| + k] == b[k];
  }
}
