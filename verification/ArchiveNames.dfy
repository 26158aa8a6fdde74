/** Collision-free names in the quarantine archive (`_unique_archive_path`). */
module ArchiveNames {

  const RESERVED: set<string> := {"manifest.json", ".quarantine.lock"}

  function LastDot(name: string): (i: int)
    ensures -1 <= i < |name|
    ensures i >= 0 ==> name[i] == '.'
  {
    if name == [] then -1
    else if name[|name| - 1] == '.' then |name| - 1
    else LastDot(name[..|name| - 1])
  }

  /** A dot that opens or closes the name does not start a suffix. */
  predicate HasSuffix(name: string) {
    0 < LastDot(name) < |name| - 1
  }

  function Stem(name: string): string {
    if HasSuffix(name) then name[..LastDot(name)] else name
  }

  function Suffix(name: string): string {
    if HasSuffix(name) then name[LastDot(name)..] else ""
  }

  function Digit(d: nat): char
    requires d < 10
  {
    "0123456789"[d]
  }

  function Decimal(n: nat): (s: string)
    ensures s != "" && forall c :: c in s ==> '0' <= c <= '9'
  {
    if n < 10 then [Digit(n)] else Decimal(n / 10) + [Digit(n % 10)]
  }

  function Candidate(name: string, index: nat): string {
    Stem(name) + "." + Decimal(index) + Suffix(name)
  }

  lemma DecimalSplits(n: nat)
    requires n >= 10
    ensures var s := Decimal(n);
            |s| > 1 && s[..|s| - 1] == Decimal(n / 10) && s[|s| - 1] == Digit(n % 10)
  {}

  lemma {:induction false} DecimalInjective(m: nat, n: nat)
    ensures Decimal(m) == Decimal(n) ==> m == n
    decreases m + n
  {
    if m >= 10 { DecimalSplits(m); }
    if n >= 10 { DecimalSplits(n); }
    if m >= 10 && n >= 10 { DecimalInjective(m / 10, n / 10); }
  }

  /** The number that a text of digits stands for. */
  function Value(digits: string): int {
    if digits == "" then 0 else 10 * Value(digits[..|digits| - 1]) + (digits[|digits| - 1] as int - '0' as int)
  }

  /** The decimal form stands for its number, in digits and without a zero in front. */
  lemma {:induction false} DecimalReads(n: nat)
    ensures Value(Decimal(n)) == n && (n > 0 ==> Decimal(n)[0] != '0')
    decreases n
  {
    DigitReads(n % 10);
    if n < 10 {
      assert Decimal(n)[..0] == "";
    } else {
      DecimalSplits(n);
      DecimalReads(n / 10);
      assert Decimal(n)[0] == Decimal(n)[..|Decimal(n)| - 1][0];
    }
  }

  lemma DigitReads(d: nat)
    requires d < 10
    ensures Digit(d) as int - '0' as int == d
  {}

  /** There is a dot inside the name, neither at its end nor with nothing before it, and none after it. */
  predicate SplitsAt(name: string, i: nat) {
    0 < i < |name| - 1 && name[i] == '.' && forall j :: i < j < |name| ==> name[j] != '.'
  }

  lemma {:induction false} LastDotLast(name: string)
    ensures forall j :: LastDot(name) < j < |name| ==> name[j] != '.'
    decreases |name|
  {
    if name != [] && name[|name| - 1] != '.' {
      LastDotLast(name[..|name| - 1]);
    }
  }

  /** A numbered name is the file's name with a dot and the number put before its suffix, the part from its last inner dot on. */
  lemma CandidateParts(name: string, index: nat)
    ensures (forall i: nat :: SplitsAt(name, i) ==> Candidate(name, index) == name[..i] + "." + Decimal(index) + name[i..])
    ensures (forall i: nat :: !SplitsAt(name, i)) ==> Candidate(name, index) == name + "." + Decimal(index)
  {
    LastDotLast(name);
    if HasSuffix(name) {
      assert SplitsAt(name, LastDot(name));
    }
  }

  lemma CandidateInjective(name: string, m: nat, n: nat)
    requires Candidate(name, m) == Candidate(name, n)
    ensures m == n
  {
    var stem, suffix := Stem(name) + ".", Suffix(name);
    var a, b := Candidate(name, m), Candidate(name, n);
    assert a[|stem|..|a| - |suffix|] == Decimal(m);
    assert b[|stem|..|b| - |suffix|] == Decimal(n);
    DecimalInjective(m, n);
  }

  /** The first numbered name from `index` on that is not in the pool of names still to avoid. */
  function FreeFrom(name: string, index: nat, pool: set<string>): string
    decreases |pool|
  {
    var candidate := Candidate(name, index);
    if candidate in pool then FreeFrom(name, index + 1, pool - {candidate}) else candidate
  }

  function ArchiveName(name: string, present: set<string>): string {
    if name !in RESERVED && name !in present then name else FreeFrom(name, 2, present + RESERVED)
  }

  ghost predicate FirstFree(name: string, index: nat, taken: set<string>, k: nat) {
    && index <= k
    && Candidate(name, k) !in taken
    && forall j {:trigger Candidate(name, j)} :: index <= j < k ==> Candidate(name, j) in taken
  }

  lemma {:induction false} FreeFromIsFirst(name: string, index: nat, pool: set<string>) returns (k: nat)
    ensures FreeFrom(name, index, pool) == Candidate(name, k)
    ensures FirstFree(name, index, pool, k)
    ensures k <= index + |pool|
    decreases |pool|
  {
    var candidate := Candidate(name, index);
    if candidate in pool {
      k := FreeFromIsFirst(name, index + 1, pool - {candidate});
      if Candidate(name, k) == candidate { CandidateInjective(name, k, index); }
    } else {
      k := index;
    }
  }

  /**
   The archive name never collides with a file in the archive or a reserved name, it is
   the file's own name whenever that is free, and otherwise carries the least free number
   from 2 on, which is at most the number of names in the way plus 2.
   */
  lemma ArchiveNameLeast(name: string, present: set<string>)
    ensures ArchiveName(name, present) !in present + RESERVED && ArchiveName(name, present) !in {"manifest.json", ".quarantine.lock"}
    ensures name !in present + RESERVED ==> ArchiveName(name, present) == name
    ensures name in present + RESERVED ==>
              exists k: nat :: FirstFree(name, 2, present + RESERVED, k) && k <= 2 + |present + RESERVED|
                          && ArchiveName(name, present) == Candidate(name, k)
  {
    if name in present + RESERVED {
      var k := FreeFromIsFirst(name, 2, present + RESERVED);
    }
  }

  /** A single path component: no separator, and not the empty or the current-directory component. */
  predicate PlainName(name: string) {
    name != "" && name != "." && '/' !in name
  }

  lemma ArchiveNamePlain(name: string, present: set<string>)
    requires PlainName(name)
    ensures PlainName(ArchiveName(name, present))
  {
    if name in present + RESERVED {
      var k := FreeFromIsFirst(name, 2, present + RESERVED);
      var candidate := Candidate(name, k);
      assert |candidate| >= 2;
      forall i | 0 <= i < |candidate| ensures candidate[i] != '/' {
        var stem, digits := Stem(name) + ".", Decimal(k);
        if i < |stem| {
          assert candidate[i] == stem[i];
          assert forall c :: c in Stem(name) ==> c in name;
        } else if i < |stem| + |digits| {
          assert candidate[i] == digits[i - |stem|] && candidate[i] in digits;
        } else {
          var suffix := Suffix(name);
          assert candidate == stem + digits + suffix;
          assert candidate[i] == suffix[i - |stem| - |digits|];
          assert forall c :: c in suffix ==> c in name;
        }
      }
    }
  }

  /** The search loop.  It ends because numbered names are pairwise different and the pool is finite. */
  method UniqueArchivePath(name: string, present: set<string>) returns (target: string)
    ensures target == ArchiveName(name, present)
  {
    if name !in RESERVED && name !in present {
      return name;
    }
    var index := 2;
    ghost var pool := present + RESERVED;
    target := Candidate(name, index);
    while target in RESERVED || target in present
      invariant index >= 2 && target == Candidate(name, index)
      invariant FreeFrom(name, 2, present + RESERVED) == FreeFrom(name, index, pool)
      invariant pool <= present + RESERVED
      invariant forall j {:trigger Candidate(name, j)} :: index <= j && Candidate(name, j) in present + RESERVED ==> Candidate(name, j) in pool
      decreases pool
    {
      forall j {:trigger Candidate(name, j)} | index < j && Candidate(name, j) in present + RESERVED
        ensures Candidate(name, j) in pool - {target}
      {
        if Candidate(name, j) == target { CandidateInjective(name, j, index); }
      }
      pool := pool - {target};
      index := index + 1;
      target := Candidate(name, index);
    }
  }
}
