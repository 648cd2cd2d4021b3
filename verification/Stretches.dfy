/** Active time measured two ways over a half-open range of instants.

    Instants are whole microseconds, the resolution at which the database keeps
    every timestamp. `Count` says how many of them satisfy a predicate.
    `ActiveSeconds` is what the interval code adds up: the range is cut into the
    longest unbroken stretches on which the predicate holds, and each stretch
    contributes its whole seconds (`num_seconds` drops the rest).
 */
module Stretches {

  /** The whole seconds of a non-negative duration. */
  function Secs(duration: nat): (s: nat)
    ensures s * 1_000_000 <= duration < s * 1_000_000 + 1_000_000
  {
    duration / 1_000_000
  }

  ghost predicate Whole(t: int) {
    t % 1_000_000 == 0
  }

  /** The instants of [a, b) at which `p` holds. */
  ghost function Count(p: int -> bool, a: int, b: int): (n: nat)
    ensures a <= b ==> n <= b - a
    decreases b - a
  {
    if b <= a then 0 else Count(p, a, b - 1) + if p(b - 1) then 1 else 0
  }

  /** Scanning [a, b) from the left: the seconds of the stretches that have ended,
      and the length of the stretch still running at `b`. */
  ghost function Scan(p: int -> bool, a: int, b: int): (r: (nat, nat))
    ensures a <= b ==> r.1 <= b - a
    decreases b - a
  {
    if b <= a then (0, 0)
    else
      var (done, run) := Scan(p, a, b - 1);
      if p(b - 1) then (done, run + 1) else (done + Secs(run), 0)
  }

  ghost function ActiveSeconds(p: int -> bool, a: int, b: int): nat {
    var (done, run) := Scan(p, a, b);
    done + Secs(run)
  }

  /** How long `p` goes on holding from `b`, looking no further than `c`. */
  ghost function Lead(p: int -> bool, b: int, c: int): (n: nat)
    ensures b <= c ==> n <= c - b
    decreases c - b
  {
    if c <= b then 0
    else if Lead(p, b, c - 1) == c - 1 - b && p(c - 1) then c - b
    else Lead(p, b, c - 1)
  }

  /** The stretches of `p` that begin in [a, b), counting one already running at `a`. */
  ghost function Beginnings(p: int -> bool, a: int, b: int): nat
    decreases b - a
  {
    if b <= a then 0
    else Beginnings(p, a, b - 1) + if p(b - 1) && (b - 1 == a || !p(b - 2)) then 1 else 0
  }

  // ---------------------------------------------------------------- scanning

  lemma {:induction false} ScanAgrees(p: int -> bool, q: int -> bool, a: int, b: int)
    requires forall t :: a <= t < b ==> p(t) == q(t)
    ensures Scan(p, a, b) == Scan(q, a, b)
    ensures Count(p, a, b) == Count(q, a, b)
    decreases b - a
  {
    if a < b {
      ScanAgrees(p, q, a, b - 1);
    }
  }

  lemma {:induction false} ScanOn(p: int -> bool, a: int, x: int, y: int)
    requires a <= x <= y
    requires forall t :: x <= t < y ==> p(t)
    ensures Scan(p, a, y) == (Scan(p, a, x).0, Scan(p, a, x).1 + (y - x))
    ensures Count(p, a, y) == Count(p, a, x) + (y - x)
    decreases y - x
  {
    if x < y {
      ScanOn(p, a, x, y - 1);
    }
  }

  lemma {:induction false} ScanOff(p: int -> bool, a: int, x: int, y: int)
    requires a <= x < y
    requires forall t :: x <= t < y ==> !p(t)
    ensures Scan(p, a, y) == (ActiveSeconds(p, a, x), 0)
    ensures Count(p, a, y) == Count(p, a, x)
    decreases y - x
  {
    if x < y - 1 {
      ScanOff(p, a, x, y - 1);
    }
  }

  /** Looking further never takes seconds away. */
  lemma {:induction false} ActiveSecondsGrows(p: int -> bool, a: int, b: int, c: int)
    requires b <= c
    ensures ActiveSeconds(p, a, b) <= ActiveSeconds(p, a, c)
    decreases c - b
  {
    if b < c {
      ActiveSecondsGrows(p, a, b, c - 1);
    }
  }

  // ------------------------------------------------- seconds against instants

  /** Truncation loses less than a second per stretch and never adds anything. */
  lemma {:induction false} SecondsWithinCount(p: int -> bool, a: int, b: int)
    ensures 1_000_000 * ActiveSeconds(p, a, b) <= Count(p, a, b)
    ensures Count(p, a, b) <= 1_000_000 * ActiveSeconds(p, a, b) + 999_999 * Beginnings(p, a, b)
  {
    ScanWithinCount(p, a, b);
  }

  lemma {:induction false} ScanWithinCount(p: int -> bool, a: int, b: int)
    ensures 1_000_000 * Scan(p, a, b).0 + Scan(p, a, b).1 <= Count(p, a, b)
    ensures Count(p, a, b) <= 1_000_000 * Scan(p, a, b).0 + Scan(p, a, b).1
                              + 999_999 * (Beginnings(p, a, b) - if Scan(p, a, b).1 > 0 then 1 else 0)
    ensures Scan(p, a, b).1 > 0 <==> a < b && p(b - 1)
    decreases b - a
  {
    if a < b {
      ScanWithinCount(p, a, b - 1);
    }
  }

  /** `t` lies in the second that starts at `x`. */
  ghost predicate InSecond(x: int, t: int) {
    Whole(x) && x <= t < x + 1_000_000
  }

  /** `p` cannot change in the middle of a second. */
  ghost predicate OnSeconds(p: int -> bool) {
    forall x, t | InSecond(x, t) :: p(t) == p(x)
  }

  lemma {:induction false} WholeSecs(n: nat)
    requires Whole(n)
    ensures 1_000_000 * Secs(n) == n && Whole(n + 1_000_000)
  {
  }

  lemma {:induction false} NothingScanned(p: int -> bool, a: int)
    ensures Scan(p, a, a) == (0, 0) && Count(p, a, a) == 0
  {
  }

  lemma {:induction false} WholeSecond(p: int -> bool, a: int, x: int)
    requires OnSeconds(p) && Whole(a) && Whole(x) && a <= x && Whole(Scan(p, a, x).1)
    ensures Whole(Scan(p, a, x + 1_000_000).1)
    ensures 1_000_000 * Scan(p, a, x + 1_000_000).0 + Scan(p, a, x + 1_000_000).1 - Count(p, a, x + 1_000_000)
            == 1_000_000 * Scan(p, a, x).0 + Scan(p, a, x).1 - Count(p, a, x)
  {
    hide Secs, Scan, Count;
    WholeSecs(Scan(p, a, x).1);
    forall t | x <= t < x + 1_000_000 ensures p(t) == p(x) {
      assert InSecond(x, t);
    }
    if p(x) {
      ScanOn(p, a, x, x + 1_000_000);
    } else {
      ScanOff(p, a, x, x + 1_000_000);
    }
  }

  lemma {:induction false} WholeScan(p: int -> bool, a: int, n: nat)
    requires OnSeconds(p) && Whole(a)
    ensures var (done, run) := Scan(p, a, a + 1_000_000 * n);
            Whole(run) && 1_000_000 * done + run == Count(p, a, a + 1_000_000 * n)
  {
    hide Scan, Count;
    if n > 0 {
      WholeScan(p, a, n - 1);
      WholeSecond(p, a, a + 1_000_000 * (n - 1));
    } else {
      NothingScanned(p, a);
    }
  }

  /** Between whole seconds, a predicate that only changes on whole seconds is
      measured exactly. */
  lemma {:induction false} WholeSecondsExact(p: int -> bool, a: int, b: int)
    requires OnSeconds(p) && Whole(a) && Whole(b) && a <= b
    ensures 1_000_000 * ActiveSeconds(p, a, b) == Count(p, a, b)
  {
    var n := (b - a) / 1_000_000;
    assert b == a + 1_000_000 * n;
    WholeScan(p, a, n);
    WholeSecs(Scan(p, a, b).1);
  }

  // ------------------------------------------------------ splitting the range

  lemma {:induction false} CountSplit(p: int -> bool, a: int, b: int, c: int)
    requires a <= b <= c
    ensures Count(p, a, c) == Count(p, a, b) + Count(p, b, c)
    decreases c - b
  {
    if b < c {
      CountSplit(p, a, b, c - 1);
    }
  }

  lemma {:induction false} ScanSplit(p: int -> bool, a: int, b: int, c: int)
    requires a <= b <= c
    ensures var (done, run) := Scan(p, a, b);
            var (later, tail) := Scan(p, b, c);
            var lead := Lead(p, b, c);
            if lead == c - b then
              (later, tail) == (0, lead) && Scan(p, a, c) == (done, run + lead)
            else
              Secs(lead) <= later && Scan(p, a, c) == (done + Secs(run + lead) + (later - Secs(lead)), tail)
    decreases c - b
  {
    hide Secs;
    if Lead(p, b, c) == c - b {
      LeadAll(p, b, c);
      ScanOn(p, a, b, c);
      ScanOn(p, b, b, c);
    } else {
      ScanSplit(p, a, b, c - 1);
    }
  }

  lemma {:induction false} LeadAll(p: int -> bool, b: int, c: int)
    requires b <= c && Lead(p, b, c) == c - b
    ensures forall t | b <= t < c :: p(t)
    decreases c - b
  {
    if b < c {
      LeadAll(p, b, c - 1);
    }
  }

  /** What a stretch that runs through `b` gives back when it is not cut there:
      one second when the two dropped remainders make up a second, else none. */
  ghost function Carry(p: int -> bool, a: int, b: int, c: int): (k: nat) {
    if Scan(p, a, b).1 % 1_000_000 + Lead(p, b, c) % 1_000_000 >= 1_000_000 then 1 else 0
  }

  lemma {:induction false} SplitSeconds(p: int -> bool, a: int, b: int, c: int)
    requires a <= b <= c
    ensures ActiveSeconds(p, a, c) == ActiveSeconds(p, a, b) + ActiveSeconds(p, b, c) + Carry(p, a, b, c)
  {
    ScanSplit(p, a, b, c);
  }

  lemma {:induction false} LeadOff(p: int -> bool, b: int, c: int)
    requires b < c && !p(b)
    ensures Lead(p, b, c) == 0
    decreases c - b
  {
    if b + 1 < c {
      LeadOff(p, b, c - 1);
    }
  }

  /** Cutting at a whole second costs nothing when the range starts at one. */
  lemma {:induction false} WholeCutCarriesNothing(p: int -> bool, a: int, b: int, c: int)
    requires OnSeconds(p) && Whole(a) && Whole(b) && a <= b <= c
    ensures Carry(p, a, b, c) == 0
  {
    var n := (b - a) / 1_000_000;
    assert b == a + 1_000_000 * n;
    WholeScan(p, a, n);
  }

  lemma {:induction false} ScanIdle(p: int -> bool, a: int, b: int)
    requires forall t :: a <= t < b ==> !p(t)
    ensures Scan(p, a, b) == (0, 0) && Count(p, a, b) == 0
    decreases b - a
  {
    if a < b {
      ScanIdle(p, a, b - 1);
    }
  }

  // ----------------------------------------------------- when a cut costs a second

  /** Where the stretch through `b` began, up to whole seconds: at `a`, or on a whole
      second, which 0 stands for. */
  ghost function Since(p: int -> bool, a: int, b: int): int {
    if forall t | a <= t < b :: p(t) then a else 0
  }

  ghost function Until(p: int -> bool, b: int, c: int): int {
    if forall t | b <= t < c :: p(t) then c else 0
  }

  /** Cutting [a, c) at `b` costs a second: `p` holds at `b`, and the stretch through
      `b` has more of a second behind `b` than in all. */
  ghost predicate Cuts(p: int -> bool, a: int, b: int, c: int) {
    p(b) && (b - Since(p, a, b)) % 1_000_000 > (Until(p, b, c) - Since(p, a, b)) % 1_000_000
  }

  lemma {:induction false} ChangeIsWhole(p: int -> bool, t: int)
    requires OnSeconds(p) && p(t - 1) != p(t)
    ensures Whole(t)
  {
    if !Whole(t) {
      var x := t - t % 1_000_000;
      assert InSecond(x, t - 1) && InSecond(x, t);
    }
  }

  /** The stretch running at `b` began at `a` or right after the last gap. */
  lemma {:induction false} RunBegins(p: int -> bool, a: int, b: int) returns (start: int)
    requires a <= b
    ensures a <= start <= b && Scan(p, a, b).1 == b - start && forall t | start <= t < b :: p(t)
    ensures start == a || !p(start - 1)
    decreases b - a
  {
    if a == b || !p(b - 1) {
      start := b;
    } else {
      start := RunBegins(p, a, b - 1);
    }
  }

  lemma {:induction false} LeadEnds(p: int -> bool, b: int, c: int) returns (end: int)
    requires b <= c
    ensures b <= end <= c && Lead(p, b, c) == end - b && forall t | b <= t < end :: p(t)
    ensures end == c || !p(end)
    decreases c - b
  {
    if b == c {
      end := b;
    } else {
      end := LeadEnds(p, b, c - 1);
      if end == c - 1 && p(c - 1) {
        end := c;
      }
    }
  }

  lemma {:induction false} Remainder(v: int, q: int, r: int)
    requires v == 1_000_000 * q + r && 0 <= r < 1_000_000
    ensures v % 1_000_000 == r
  {
  }

  lemma {:induction false} WholeApart(w: int, b: int)
    requires Whole(w)
    ensures (b - w) % 1_000_000 == b % 1_000_000 && (w - b) % 1_000_000 == -b % 1_000_000
  {
    Remainder(b - w, b / 1_000_000 - w / 1_000_000, b % 1_000_000);
    Remainder(w - b, -b / 1_000_000 + w / 1_000_000, -b % 1_000_000);
  }

  lemma {:induction false} RemaindersCarry(x: int, y: int)
    ensures x % 1_000_000 + y % 1_000_000 >= 1_000_000 <==> x % 1_000_000 > (x + y) % 1_000_000
  {
    var q, r := x / 1_000_000 + y / 1_000_000, x % 1_000_000 + y % 1_000_000;
    assert x + y == 1_000_000 * q + r;
    if r >= 1_000_000 {
      Remainder(x + y, q + 1, r - 1_000_000);
    } else {
      Remainder(x + y, q, r);
    }
  }

  lemma {:induction false} RunRemainder(p: int -> bool, a: int, b: int)
    requires OnSeconds(p) && a < b && p(b)
    ensures Scan(p, a, b).1 % 1_000_000 == (b - Since(p, a, b)) % 1_000_000
  {
    hide Scan, OnSeconds, Whole;
    var start := RunBegins(p, a, b);
    if start != a {
      assert !p(start - 1) && p(start);
      ChangeIsWhole(p, start);
      WholeApart(start, b);
    }
  }

  lemma {:induction false} LeadRemainder(p: int -> bool, b: int, c: int)
    requires OnSeconds(p) && b < c && p(b)
    ensures Lead(p, b, c) % 1_000_000 == (Until(p, b, c) - b) % 1_000_000
  {
    hide Lead, OnSeconds, Whole;
    var end := LeadEnds(p, b, c);
    if end != c {
      assert p(end - 1) && !p(end);
      ChangeIsWhole(p, end);
      WholeApart(end, b);
    }
  }

  /** The carry in closed form. */
  lemma {:induction false} CarryExactly(p: int -> bool, a: int, b: int, c: int)
    requires OnSeconds(p) && a < b < c
    ensures Carry(p, a, b, c) == if Cuts(p, a, b, c) then 1 else 0
  {
    hide Scan, Lead, OnSeconds, Since, Until;
    if p(b) {
      RunRemainder(p, a, b);
      LeadRemainder(p, b, c);
      var x, y := b - Since(p, a, b), Until(p, b, c) - b;
      RemaindersCarry(x, y);
      assert x + y == Until(p, b, c) - Since(p, a, b);
    } else {
      LeadOff(p, b, c);
    }
  }
}
