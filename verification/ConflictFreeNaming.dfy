/** Choosing a destination name that no existing file bears. */
module ConflictFreeNaming {
  import opened Wrappers

  datatype DestPath = DestPath(parent: string, name: string)

  const MAX_ATTEMPTS: nat := 9999

  function Digit(d: nat): char
    requires d < 10
  {
    ['0', '1', '2', '3', '4', '5', '6', '7', '8', '9'][d]
  }

  function Decimal(n: nat): string {
    if n < 10 then [Digit(n)] else Decimal(n / 10) + [Digit(n % 10)]
  }

  lemma {:induction false} DecimalIsInjective(m: nat, n: nat)
    requires Decimal(m) == Decimal(n)
    ensures m == n
    decreases m
  {
    var x, y := Decimal(m), Decimal(n);
    assert x[|x| - 1] == y[|y| - 1];
    assert m % 10 == n % 10;
    if m < 10 || n < 10 {
      DecimalLength(m);
      DecimalLength(n);
    } else {
      assert x[..|x| - 1] == Decimal(m / 10) && y[..|y| - 1] == Decimal(n / 10);
      DecimalIsInjective(m / 10, n / 10);
    }
  }

  lemma DecimalLength(n: nat)
    ensures |Decimal(n)| >= 1 && (|Decimal(n)| == 1 <==> n < 10)
  {
    if n >= 10 {
      DecimalLength(n / 10);
    }
  }

  /** The position of the first dot, or the length if there is none. */
  function FirstDot(name: string): (i: nat)
    ensures i <= |name| && '.' !in name[..i] && (i < |name| ==> name[i] == '.')
  {
    if name == [] || name[0] == '.' then 0 else 1 + FirstDot(name[1..])
  }

  /** Candidate 0 is the name itself; candidate `k` carries `_k` before everything from the first dot on. */
  function Candidate(dest: DestPath, k: nat): DestPath {
    var dot := FirstDot(dest.name);
    if k == 0 then dest
    else DestPath(dest.parent, dest.name[..dot] + "_" + Decimal(k) + dest.name[dot..])
  }

  lemma CandidatesAreDistinct(dest: DestPath, j: nat, k: nat)
    requires Candidate(dest, j) == Candidate(dest, k)
    ensures j == k
  {
    var dot := FirstDot(dest.name);
    var base, ext := dest.name[..dot], dest.name[dot..];
    assert base + ext == dest.name;
    if j != 0 && k != 0 {
      var x, y := base + "_" + Decimal(j) + ext, base + "_" + Decimal(k) + ext;
      assert |Decimal(j)| == |Decimal(k)|;
      assert Decimal(j) == x[|base| + 1..|base| + 1 + |Decimal(j)|];
      assert Decimal(k) == y[|base| + 1..|base| + 1 + |Decimal(k)|];
      DecimalIsInjective(j, k);
    }
  }

  /** The number a string of decimal digits stands for. */
  function Value(digits: string): int {
    if digits == "" then 0
    else Value(digits[..|digits| - 1]) * 10 + (digits[|digits| - 1] as int - '0' as int)
  }

  /** The string is the number in decimal, without leading zeros. */
  predicate IsDecimalOf(digits: string, n: nat) {
    && digits != "" && (|digits| > 1 ==> digits[0] != '0')
    && (forall i :: 0 <= i < |digits| ==> '0' <= digits[i] <= '9')
    && Value(digits) == n
  }

  lemma {:induction false} DecimalIsDecimal(n: nat)
    ensures IsDecimalOf(Decimal(n), n)
    decreases n
  {
    if n >= 10 {
      DecimalIsDecimal(n / 10);
      var digits := Decimal(n);
      assert digits[..|digits| - 1] == Decimal(n / 10);
      DecimalLength(n / 10);
    } else {
      assert Decimal(n)[..0] == "";
    }
  }

  /**
   The path is `dest` with number `k` put in: an underscore and the number in decimal, before the first dot of the
   name, or at its end if there is none; number 0 is the path itself.
   */
  ghost predicate IsNumbered(dest: DestPath, k: nat, path: DestPath) {
    && path.parent == dest.parent
    && (k == 0 ==> path.name == dest.name)
    && (k > 0 ==>
          exists base: string, extensions: string, digits: string ::
            PutIn(base, extensions, digits, dest.name, path.name) && IsDecimalOf(digits, k))
  }

  predicate PutIn(base: string, extensions: string, digits: string, name: string, numbered: string) {
    && name == base + extensions && '.' !in base && (extensions != "" ==> extensions[0] == '.')
    && numbered == base + "_" + digits + extensions
  }

  lemma CandidateIsNumbered(dest: DestPath, k: nat)
    ensures IsNumbered(dest, k, Candidate(dest, k))
  {
    if k > 0 {
      var dot := FirstDot(dest.name);
      DecimalIsDecimal(k);
      assert PutIn(dest.name[..dot], dest.name[dot..], Decimal(k), dest.name, Candidate(dest, k).name);
    }
  }

  /** The suffix is the least one that is free. */
  ghost predicate LeastFree(existing: set<DestPath>, dest: DestPath, k: nat) {
    Candidate(dest, k) !in existing && forall j: nat :: j < k ==> Candidate(dest, j) in existing
  }

  /** Tries the name itself, then suffixes 1 to 9999; `None` stands for the error raised when all are taken. */
  method GenerateConflictFreePath(existing: set<DestPath>, dest: DestPath) returns (path: Option<DestPath>)
    ensures path.Some? ==>
      exists k: nat ::
        && k <= MAX_ATTEMPTS && path.value == Candidate(dest, k) && LeastFree(existing, dest, k)
        && IsNumbered(dest, k, path.value)
    ensures path.None? <==> forall k: nat :: k < 10000 ==> Candidate(dest, k) in existing
    ensures |existing| < 10000 ==> path.Some?
    ensures path == Choose(existing, dest, 0)
  {
    hide IsNumbered;
    if |existing| <= MAX_ATTEMPTS {
      SomeCandidateIsFree(existing, dest);
    }
    if dest !in existing {
      assert LeastFree(existing, dest, 0);
      CandidateIsNumbered(dest, 0);
      ChooseIsLeastFree(existing, dest, 0, 0);
      return Some(dest);
    }
    var dot := FirstDot(dest.name);
    var baseName, extensions := dest.name[..dot], dest.name[dot..];
    var counter := 1;
    while true
      invariant 1 <= counter <= MAX_ATTEMPTS
      invariant forall j: nat :: j < counter ==> Candidate(dest, j) in existing
      decreases MAX_ATTEMPTS - counter
    {
      var newPath := DestPath(dest.parent, baseName + "_" + Decimal(counter) + extensions);
      assert newPath == Candidate(dest, counter);
      if newPath !in existing {
        assert LeastFree(existing, dest, counter);
        CandidateIsNumbered(dest, counter);
        ChooseIsLeastFree(existing, dest, 0, counter);
        return Some(newPath);
      }
      counter := counter + 1;
      if counter > MAX_ATTEMPTS {
        NothingToChoose(existing, dest, 0);
        return None;
      }
    }
  }

  function FirstCandidates(dest: DestPath, n: nat): set<DestPath> {
    set k: nat | k < n :: Candidate(dest, k)
  }

  lemma {:induction false} CandidateCount(dest: DestPath, n: nat)
    ensures |FirstCandidates(dest, n)| == n
    decreases n
  {
    hide Candidate;
    if n != 0 {
      CandidateCount(dest, n - 1);
      var fewer := FirstCandidates(dest, n - 1);
      assert Candidate(dest, n - 1) !in fewer by {
        if Candidate(dest, n - 1) in fewer {
          var k: nat :| k < n - 1 && Candidate(dest, k) == Candidate(dest, n - 1);
          CandidatesAreDistinct(dest, k, n - 1);
        }
      }
      assert FirstCandidates(dest, n) == fewer + {Candidate(dest, n - 1)};
    }
  }

  lemma SubsetCount<T>(a: set<T>, b: set<T>)
    requires a <= b
    ensures |a| <= |b|
  {
    assert b == a + (b - a);
  }

  /** Pigeonhole: with fewer than 10000 existing files, one of the 10000 candidates is free. */
  lemma SomeCandidateIsFree(existing: set<DestPath>, dest: DestPath)
    requires |existing| <= MAX_ATTEMPTS
    ensures exists k: nat :: k <= MAX_ATTEMPTS && Candidate(dest, k) !in existing
  {
    if forall k: nat :: k <= MAX_ATTEMPTS ==> Candidate(dest, k) in existing {
      CandidateCount(dest, MAX_ATTEMPTS + 1);
      SubsetCount(FirstCandidates(dest, MAX_ATTEMPTS + 1), existing);
    }
  }

  // ----- Runs of one worker

  /** The least free candidate from suffix `k` on. */
  function Choose(existing: set<DestPath>, dest: DestPath, k: nat): Option<DestPath>
    decreases MAX_ATTEMPTS + 1 - k
  {
    if k > MAX_ATTEMPTS then None
    else if Candidate(dest, k) !in existing then Some(Candidate(dest, k))
    else Choose(existing, dest, k + 1)
  }

  lemma {:induction false} ChooseIsLeastFree(existing: set<DestPath>, dest: DestPath, k: nat, n: nat)
    requires k <= n <= MAX_ATTEMPTS && LeastFree(existing, dest, n)
    ensures Choose(existing, dest, k) == Some(Candidate(dest, n))
    decreases n - k
  {
    if k < n {
      ChooseIsLeastFree(existing, dest, k + 1, n);
    }
  }

  lemma {:induction false} NothingToChoose(existing: set<DestPath>, dest: DestPath, k: nat)
    requires forall j: nat :: j <= MAX_ATTEMPTS ==> Candidate(dest, j) in existing
    ensures Choose(existing, dest, k) == None
    decreases MAX_ATTEMPTS + 1 - k
  {
    if k <= MAX_ATTEMPTS {
      NothingToChoose(existing, dest, k + 1);
    }
  }

  /** One job: where it wants to write, and whether opening the chosen destination succeeds. */
  datatype Job = Job(dest: DestPath, opens: bool)

  /** The destinations a single worker opens for writing, job after job; opening creates the file. */
  function Opened(existing: set<DestPath>, jobs: seq<Job>): seq<DestPath>
    decreases |jobs|
  {
    if jobs == [] then []
    else
      var path := Choose(existing, jobs[0].dest, 0);
      if path.Some? && jobs[0].opens then [path.value] + Opened(existing + {path.value}, jobs[1..])
      else Opened(existing, jobs[1..])
  }

  lemma {:induction false} ChooseIsFree(existing: set<DestPath>, dest: DestPath, k: nat)
    ensures Choose(existing, dest, k).Some? ==> Choose(existing, dest, k).value !in existing
    decreases MAX_ATTEMPTS + 1 - k
  {
    if k <= MAX_ATTEMPTS {
      ChooseIsFree(existing, dest, k + 1);
    }
  }

  /**
   Over any run of one worker, no job opens a destination that existed when the run began or that an
   earlier job opened, so no finished copy is ever overwritten.
   */
  lemma {:induction false} NoDestinationIsReused(existing: set<DestPath>, jobs: seq<Job>)
    ensures forall i :: 0 <= i < |Opened(existing, jobs)| ==> Opened(existing, jobs)[i] !in existing
    ensures forall i, j :: 0 <= i < j < |Opened(existing, jobs)| ==>
      Opened(existing, jobs)[i] != Opened(existing, jobs)[j]
    decreases |jobs|
  {
    if jobs != [] {
      var path := Choose(existing, jobs[0].dest, 0);
      ChooseIsFree(existing, jobs[0].dest, 0);
      if path.Some? && jobs[0].opens {
        NoDestinationIsReused(existing + {path.value}, jobs[1..]);
        var rest := Opened(existing + {path.value}, jobs[1..]);
        forall i | 0 <= i < |rest| ensures rest[i] !in existing && rest[i] != path.value {
          assert rest[i] !in existing + {path.value};
        }
      } else {
        NoDestinationIsReused(existing, jobs[1..]);
      }
    }
  }
}
