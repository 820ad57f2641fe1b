/** What several modules share: units, counting, and finite sets and lists. */
module Common {

  /** Times and durations are nanoseconds, as in Go. */
  const MINUTE := 60_000_000_000

  function One(b: bool): nat { if b then 1 else 0 }

  /** A list with the element at one place taken out. */
  function Without<T>(s: seq<T>, at: nat): seq<T>
    requires at < |s|
  {
    s[..at] + s[at + 1..]
  }

  lemma {:induction false} SubsetSize<T>(a: set<T>, b: set<T>)
    requires a <= b
    ensures |a| <= |b|
  {
    if a != {} {
      var x :| x in a;
      SubsetSize(a - {x}, b - {x});
    }
  }
}
