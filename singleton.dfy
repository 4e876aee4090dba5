/**
 * The singleton decorator: a process-wide table from a class's name to the one
 * instance built for it, filled lazily by `instance` and never emptied.
 * Each `instance` call runs under a lock, so it is modelled as one atomic step.
 */
module SingletonRegistry {
  import opened Results

  /** The message carried by the error that a direct call of a decorated class raises. */
  const SingletonErrorMessage := "Singletons must be accessed through the `Instance` method."

  /** Raised by `__call__`: the instance must be obtained through the accessor. */
  datatype SingletonError = SingletonError(message: string)

  /**
   * A class wrapped by the decorator: its `__name__`, which is the registry key,
   * and its constructor, which takes the accessor's arguments and may raise E.
   */
  datatype Decorated<!A, T, E> = Decorated(name: string, init: A -> Result<T, E>)

  /**
   * One atomic `instance` call: what it returns, the registry afterwards, and
   * whether it ran the constructor.
   */
  datatype Step<T, E> = Step(result: Result<T, E>, table: map<string, T>, constructed: bool)

  /** The effect of `instance` on the shared table, for the decorated class d called with args. */
  function GetOrCreate<A, T, E>(table: map<string, T>, d: Decorated<A, T, E>, args: A): (s: Step<T, E>)
    // the constructor runs exactly when the key is absent
    ensures s.constructed <==> d.name !in table
    // a hit returns the stored object and leaves the table as it was
    ensures d.name in table ==> s.result == Ok(table[d.name]) && s.table == table
    // a miss returns what the constructor produced, object or exception
    ensures d.name !in table ==> s.result == d.init(args)
    // an object returned is the object stored under the key
    ensures s.result.Ok? ==> d.name in s.table && s.table[d.name] == s.result.value
    // a failed construction is not cached
    ensures s.result.Err? ==> s.table == table
    // no entry is lost or replaced, and only the requested key can be added
    ensures forall k :: k in table ==> k in s.table && s.table[k] == table[k]
    ensures s.table.Keys <= table.Keys + {d.name}
  {
    if d.name in table then
      Step(Ok(table[d.name]), table, false)
    else
      match d.init(args)
      case Ok(obj) => Step(Ok(obj), table[d.name := obj], true)
      case Err(e) => Step(Err(e), table, true)
  }

  /** Once an object is stored, asking again returns it, with any arguments, and changes nothing. */
  lemma InstanceIdempotent<A, T, E>(table: map<string, T>, d: Decorated<A, T, E>, first: A, later: A)
    requires GetOrCreate(table, d, first).result.Ok?
    ensures var s1 := GetOrCreate(table, d, first);
            var s2 := GetOrCreate(s1.table, d, later);
            s2.result == s1.result && s2.table == s1.table && !s2.constructed
  {
  }

  /** A hit does not depend on the arguments: they are never passed to the constructor. */
  lemma HitIgnoresArguments<A, T, E>(table: map<string, T>, d: Decorated<A, T, E>, a1: A, a2: A)
    requires d.name in table
    ensures GetOrCreate(table, d, a1) == GetOrCreate(table, d, a2)
    ensures GetOrCreate(table, d, a1).result == Ok(table[d.name])
  {
  }

  /** A failed construction leaves the table as it was, so the next call constructs again. */
  lemma FailureRetried<A, T, E>(table: map<string, T>, d: Decorated<A, T, E>, first: A, later: A)
    requires d.name !in table && d.init(first).Err?
    ensures var s1 := GetOrCreate(table, d, first);
            s1.result == d.init(first) && s1.table == table &&
            GetOrCreate(s1.table, d, later) == GetOrCreate(table, d, later) &&
            GetOrCreate(s1.table, d, later).constructed
  {
  }

  /**
   * The key is the class name alone: a second decorated class with the same name
   * gets the first class's object and its own constructor never runs.
   */
  lemma SameNameShared<A, T, E>(table: map<string, T>, d1: Decorated<A, T, E>, d2: Decorated<A, T, E>, a1: A, a2: A)
    requires d1.name == d2.name
    requires GetOrCreate(table, d1, a1).result.Ok?
    ensures var s1 := GetOrCreate(table, d1, a1);
            var s2 := GetOrCreate(s1.table, d2, a2);
            s2.result == s1.result && s2.table == s1.table && !s2.constructed
  {
  }

  /** One run of a constructor: for which key, and whether it returned an object. */
  datatype Attempt = Attempt(key: string, succeeded: bool)

  /** How many runs in the log built an object for key. */
  function Successes(log: seq<Attempt>, key: string): (n: nat)
    ensures n <= |log|
    ensures n == 0 <==> Attempt(key, true) !in log
  {
    if log == [] then 0
    else (if log[0] == Attempt(key, true) then 1 else 0) + Successes(log[1..], key)
  }

  /** Recording one more run adds one success exactly when it built an object for key. */
  lemma {:induction false} SuccessesAppend(log: seq<Attempt>, a: Attempt, key: string)
    ensures Successes(log + [a], key) == Successes(log, key) + (if a == Attempt(key, true) then 1 else 0)
  {
    if log == [] {
      assert [a][1..] == [];
    } else {
      assert (log + [a])[1..] == log[1..] + [a];
      SuccessesAppend(log[1..], a, key);
    }
  }

  /** The class-level dict `_singletons`, shared by every decorated class. */
  class Registry<T> {
    var table: map<string, T>
    /** Every constructor run so far, in order. */
    ghost var attempts: seq<Attempt>

    /** A key is present exactly when one constructor run, and only one, built its object. */
    ghost predicate Valid()
      reads this
    {
      forall k :: Successes(attempts, k) == (if k in table then 1 else 0)
    }

    /** The dict starts empty, before any class is decorated. */
    constructor ()
      ensures Valid() && table == map[] && attempts == []
    {
      table := map[];
      attempts := [];
    }
  }

  /** The decorator applied to one class; every decorator shares the one registry. */
  class Singleton<A, T, E> {
    const decorated: Decorated<A, T, E>
    const registry: Registry<T>

    constructor (decorated: Decorated<A, T, E>, registry: Registry<T>)
      ensures this.decorated == decorated && this.registry == registry
    {
      this.decorated := decorated;
      this.registry := registry;
    }

    /**
     * Get-or-create under the lock: the stored object if the class name is a key,
     * otherwise one constructor run whose object, if any, is stored and returned.
     */
    method Instance(args: A) returns (r: Result<T, E>)
      requires registry.Valid()
      modifies registry
      ensures registry.Valid()
      ensures var s := GetOrCreate(old(registry.table), decorated, args);
              r == s.result && registry.table == s.table &&
              registry.attempts == old(registry.attempts) +
                (if s.constructed then [Attempt(decorated.name, r.Ok?)] else [])
    {
      var key := decorated.name;
      if key in registry.table {
        r := Ok(registry.table[key]);
      } else {
        var made := decorated.init(args);
        ghost var before := registry.attempts;
        registry.attempts := registry.attempts + [Attempt(key, made.Ok?)];
        if made.Ok? {
          registry.table := registry.table[key := made.value];
          r := Ok(registry.table[key]);
        } else {
          r := made;
        }
        forall k ensures Successes(registry.attempts, k) == (if k in registry.table then 1 else 0) {
          SuccessesAppend(before, Attempt(key, made.Ok?), k);
        }
      }
    }

    /** Calling the decorated class directly always raises and touches nothing. */
    method Call() returns (r: Result<T, SingletonError>)
      ensures r == Err(SingletonError(SingletonErrorMessage))
    {
      r := Err(SingletonError(SingletonErrorMessage));
    }
  }

  /**
   * Two decorated classes that share a name share one entry: the second gets
   * the first's object, and only one constructor run is recorded.
   */
  method SameNameScenario() returns (first: Result<int, string>, second: Result<int, string>)
    ensures first == Ok(1) && second == Ok(1)
  {
    var registry := new Registry<int>();
    var log := new Singleton(Decorated("PyLog", (a: int) => Ok(a)), registry);
    var other := new Singleton(Decorated("PyLog", (a: int) => Ok(a + 100)), registry);
    first := log.Instance(1);
    second := other.Instance(2);
    assert |registry.attempts| == 1;
  }

  /**
   * A constructor that raises leaves nothing behind, the next call constructs
   * again, and once an object is stored later arguments are ignored.
   */
  method RetryScenario() returns (failed: Result<int, string>, built: Result<int, string>, again: Result<int, string>)
    ensures failed == Err("negative") && built == Ok(5) && again == Ok(5)
  {
    var registry := new Registry<int>();
    var s := new Singleton(Decorated("Config", (a: int) => if a < 0 then Err("negative") else Ok(a)), registry);
    failed := s.Instance(-1);
    assert registry.table == map[];
    built := s.Instance(5);
    again := s.Instance(7);
    assert registry.attempts == [Attempt("Config", false), Attempt("Config", true)];
  }
}
