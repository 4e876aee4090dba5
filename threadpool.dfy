/**
 * The thread pool's roster of active worker names: an ordered list, appended to
 * by `make_active`, shrunk by `make_inactive` with Python's `list.remove`, and
 * reported by `threads_utilized` as a decimal string. Each locked method is
 * modelled as one atomic step.
 */
module ThreadPoolRoster {
  import opened Results

  /** The exception `list.remove` raises when the element is absent. */
  datatype ValueError = ValueError

  /** The position of the first occurrence of x in s. */
  function IndexOf(s: seq<string>, x: string): (i: nat)
    requires x in s
    ensures i < |s| && s[i] == x && x !in s[..i]
  {
    if s[0] == x then 0
    else
      var j := IndexOf(s[1..], x);
      assert s[..j + 1] == [s[0]] + s[1..][..j];
      j + 1
  }

  /** Python's `list.remove`: drop the first occurrence of x, or raise ValueError when there is none. */
  function Remove(s: seq<string>, x: string): (r: Result<seq<string>, ValueError>)
    ensures r.Ok? <==> x in s
    ensures r.Ok? ==> r.value == s[..IndexOf(s, x)] + s[IndexOf(s, x) + 1..]
  {
    if s == [] then Err(ValueError)
    else if s[0] == x then Ok(s[1..])
    else
      match Remove(s[1..], x)
      case Ok(rest) => Ok([s[0]] + rest)
      case Err(e) => Err(e)
  }

  /**
   * Removing a present name takes out one copy of it, no other element, and
   * keeps the order of what remains: the entries before its first occurrence
   * stay in place and the ones after it move down by one.
   */
  lemma RemoveFirstOnly(s: seq<string>, x: string)
    requires x in s
    ensures var r := Remove(s, x).value;
            var i := IndexOf(s, x);
            |r| == |s| - 1 &&
            multiset(r) == multiset(s) - multiset{x} &&
            (forall j :: 0 <= j < i ==> r[j] == s[j]) &&
            (forall j :: i <= j < |r| ==> r[j] == s[j + 1])
  {
    var i := IndexOf(s, x);
    assert s == s[..i] + [s[i]] + s[i + 1..];
  }

  /**
   * `make_active` then `make_inactive` of one name gives back the roster's
   * multiset, and the very same roster when the name was not yet in it.
   */
  lemma {:induction false} ActivateThenDeactivate(s: seq<string>, n: string)
    ensures Remove(s + [n], n).Ok?
    ensures multiset(Remove(s + [n], n).value) == multiset(s)
    ensures n !in s ==> Remove(s + [n], n).value == s
  {
    assert (s + [n])[|s|] == n;
    RemoveFirstOnly(s + [n], n);
    assert multiset(s + [n]) == multiset(s) + multiset{n};
    if n !in s {
      assert forall j :: 0 <= j < |s| ==> (s + [n])[j] == s[j];
      assert IndexOf(s + [n], n) == |s|;
      assert (s + [n])[..|s|] == s;
    }
  }

  /** The character of a decimal digit. */
  function DigitChar(d: nat): (c: char)
    requires d < 10
    ensures '0' <= c <= '9' && c as int - '0' as int == d
  {
    ('0' as int + d) as char
  }

  /** A string of decimal digits. */
  predicate AllDigits(s: string)
  {
    forall i :: 0 <= i < |s| ==> '0' <= s[i] <= '9'
  }

  /** The form Python's `str` gives a non-negative int: digits, with no leading zero except in "0". */
  predicate IsDecimal(s: string)
  {
    |s| > 0 && AllDigits(s) && (s[0] == '0' ==> s == "0")
  }

  /** `str(n)` for a non-negative n. */
  function Decimal(n: nat): (s: string)
    ensures IsDecimal(s)
    ensures s == "0" <==> n == 0
  {
    if n < 10 then [DigitChar(n)]
    else Decimal(n / 10) + [DigitChar(n % 10)]
  }

  /** The number a string of decimal digits denotes. */
  function DecimalValue(s: string): nat
    requires AllDigits(s)
  {
    if s == [] then 0
    else DecimalValue(s[..|s| - 1]) * 10 + (s[|s| - 1] as int - '0' as int)
  }

  /** The string `threads_utilized` reports reads back as the count it was made from. */
  lemma {:induction false} DecimalRoundTrip(n: nat)
    ensures DecimalValue(Decimal(n)) == n
  {
    var s := Decimal(n);
    if n < 10 {
      assert s[..0] == [];
    } else {
      assert s[..|s| - 1] == Decimal(n / 10);
      DecimalRoundTrip(n / 10);
    }
  }

  /** A pool's roster of the names of the workers that are active now. */
  class ThreadPool {
    var active: seq<string>

    /** A new pool has nobody active. */
    constructor ()
      ensures active == []
    {
      active := [];
    }

    /** Record a worker as active; a name already present is added again. */
    method MakeActive(name: string)
      modifies this
      ensures active == old(active) + [name]
    {
      active := active + [name];
    }

    /** Drop the first occurrence of a name, or raise ValueError and change nothing if it is absent. */
    method MakeInactive(name: string) returns (r: Outcome<ValueError>)
      modifies this
      ensures r == (if name in old(active) then Pass else Fail(ValueError))
      ensures name in old(active) ==> active == Remove(old(active), name).value
      ensures name !in old(active) ==> active == old(active)
    {
      match Remove(active, name)
      case Ok(rest) =>
        active := rest;
        r := Pass;
      case Err(_) =>
        r := Fail(ValueError);
    }

    /** The number of active workers as a decimal string. */
    method ThreadsUtilized() returns (count: string)
      ensures IsDecimal(count) && DecimalValue(count) == |active|
      ensures count == Decimal(|active|)
    {
      count := Decimal(|active|);
      DecimalRoundTrip(|active|);
    }
  }

  /** A new pool reports "0" workers in use. */
  method NewPoolUtilization() returns (count: string)
    ensures count == "0"
  {
    var pool := new ThreadPool();
    count := pool.ThreadsUtilized();
  }

  /** Activating "w1" and "w2" and then deactivating "w1" leaves "w2" alone, and a count of "1". */
  method RosterScenario() returns (roster: seq<string>, count: string)
    ensures roster == ["w2"] && count == "1"
  {
    var pool := new ThreadPool();
    pool.MakeActive("w1");
    pool.MakeActive("w2");
    var r := pool.MakeInactive("w1");
    roster := pool.active;
    count := pool.ThreadsUtilized();
  }

  /**
   * A name activated twice stays active after one deactivation, and
   * deactivating a name that is not there raises and keeps the roster.
   */
  method DuplicateScenario() returns (roster: seq<string>, missing: Outcome<ValueError>)
    ensures roster == ["w1"] && missing == Fail(ValueError)
  {
    var pool := new ThreadPool();
    pool.MakeActive("w1");
    pool.MakeActive("w1");
    var r := pool.MakeInactive("w1");
    missing := pool.MakeInactive("w3");
    roster := pool.active;
  }
}
