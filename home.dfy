/**
 * The landing section: a typewriter that types the headline one character
 * at a time, holds it, deletes it one character at a time, pauses, and
 * starts over; and the name and role read off the headline by splitting it
 * at " - ".
 */
module Home {
  import opened Wrappers

  const FullText: string := "Nguyen Tien Dat - Fullstack Dev"
  /** Milliseconds before the next character appears. */
  const TypingSpeed: nat := 150
  /** Milliseconds before the next character is removed. */
  const DeletingSpeed: nat := 100
  /** Milliseconds the full headline stays before deleting starts. */
  const HoldFull: nat := 2000
  /** Milliseconds the empty line stays before typing starts again. */
  const HoldEmpty: nat := 1000

  /** The four branches of the effect, each with the condition that selects it. */
  datatype Guard = TypeNext | DeleteLast | StartDeleting | StartTyping

  predicate Holds(g: Guard, index: int, deleting: bool, n: int)
  {
    match g
    case TypeNext => !deleting && index < n
    case DeleteLast => deleting && index > 0
    case StartDeleting => index == n && !deleting
    case StartTyping => index == 0 && deleting
  }

  /**
   * While the index stays within the headline, exactly one branch's
   * condition holds, so the order of the `else if` chain never matters and
   * the effect always schedules a timer.
   */
  lemma ExactlyOneGuard(index: int, deleting: bool, n: int)
    requires 0 <= index <= n
    ensures exists g :: Holds(g, index, deleting, n) && forall h :: Holds(h, index, deleting, n) ==> h == g
  {
    var g :=
      if !deleting && index < n then TypeNext
      else if deleting && index > 0 then DeleteLast
      else if !deleting then StartDeleting
      else StartTyping;
    assert Holds(g, index, deleting, n);
  }

  /** The part of the state the effect depends on. */
  datatype Phase = Phase(index: nat, deleting: bool)

  /** The branch the effect takes in a phase. */
  function Branch(p: Phase, n: nat): (g: Guard)
    requires p.index <= n
    ensures Holds(g, p.index, p.deleting, n)
  {
    if !p.deleting && p.index < n then TypeNext
    else if p.deleting && p.index > 0 then DeleteLast
    else if !p.deleting then StartDeleting
    else StartTyping
  }

  /** The phase once the timer of the current branch has fired. */
  function NextPhase(p: Phase, n: nat): (r: Phase)
    requires p.index <= n
    ensures r.index <= n
  {
    match Branch(p, n)
    case TypeNext => Phase(p.index + 1, false)
    case DeleteLast => Phase(p.index - 1, true)
    case StartDeleting => Phase(p.index, true)
    case StartTyping => Phase(p.index, false)
  }

  /** The timer's delay in the current branch. */
  function Delay(p: Phase, n: nat): nat
    requires p.index <= n
  {
    match Branch(p, n)
    case TypeNext => TypingSpeed
    case DeleteLast => DeletingSpeed
    case StartDeleting => HoldFull
    case StartTyping => HoldEmpty
  }

  /** The phase after `k` timers. */
  function Run(p: Phase, n: nat, k: nat): (r: Phase)
    requires p.index <= n
    ensures r.index <= n
    decreases k
  {
    if k == 0 then p else Run(NextPhase(p, n), n, k - 1)
  }

  /** The milliseconds those `k` timers take together. */
  function Elapsed(p: Phase, n: nat, k: nat): nat
    requires p.index <= n
    decreases k
  {
    if k == 0 then 0 else Delay(p, n) + Elapsed(NextPhase(p, n), n, k - 1)
  }

  /** Typing from index `i` reaches the full headline after `n - i` characters. */
  lemma {:induction false} TypingRun(i: nat, n: nat)
    requires i <= n
    ensures Run(Phase(i, false), n, n - i) == Phase(n, false)
    ensures Elapsed(Phase(i, false), n, n - i) == (n - i) * TypingSpeed
    decreases n - i
  {
    if i < n {
      assert NextPhase(Phase(i, false), n) == Phase(i + 1, false);
      TypingRun(i + 1, n);
    }
  }

  /** Deleting from index `i` reaches the empty line after `i` characters. */
  lemma {:induction false} DeletingRun(i: nat, n: nat)
    requires i <= n
    ensures Run(Phase(i, true), n, i) == Phase(0, true)
    ensures Elapsed(Phase(i, true), n, i) == i * DeletingSpeed
  {
    if i > 0 {
      assert NextPhase(Phase(i, true), n) == Phase(i - 1, true);
      DeletingRun(i - 1, n);
    }
  }

  /** Timers run back to back: `j` of them after `k` of them. */
  lemma {:induction false} RunSplit(p: Phase, n: nat, k: nat, j: nat)
    requires p.index <= n
    ensures Run(p, n, k + j) == Run(Run(p, n, k), n, j)
    ensures Elapsed(p, n, k + j) == Elapsed(p, n, k) + Elapsed(Run(p, n, k), n, j)
    decreases k
  {
    if k > 0 {
      RunSplit(NextPhase(p, n), n, k - 1, j);
    }
  }

  /**
   * From the initial state, after 2 * n + 2 timers the typewriter is back at
   * the start, having spent n typing delays, n deleting delays and the two
   * holds.
   */
  lemma Cycle(n: nat)
    ensures Run(Phase(0, false), n, 2 * n + 2) == Phase(0, false)
    ensures Elapsed(Phase(0, false), n, 2 * n + 2) == n * TypingSpeed + HoldFull + n * DeletingSpeed + HoldEmpty
  {
    var start := Phase(0, false);
    TypingRun(0, n);
    assert NextPhase(Phase(n, false), n) == Phase(n, true);
    assert Run(Phase(n, false), n, 1) == Phase(n, true);
    RunSplit(start, n, n, 1);
    DeletingRun(n, n);
    RunSplit(start, n, n + 1, n);
    assert NextPhase(Phase(0, true), n) == Phase(0, false);
    assert Run(Phase(0, true), n, 1) == Phase(0, false);
    RunSplit(start, n, 2 * n + 1, 1);
  }

  /** The component's state and the timer callbacks that update it. */
  class Typewriter {
    const fullText: string
    var displayText: string
    var currentIndex: int
    var isDeleting: bool

    /** The line shows exactly the first `currentIndex` characters. */
    predicate Valid()
      reads this
    {
      0 <= currentIndex <= |fullText| && displayText == fullText[..currentIndex]
    }

    function CurrentPhase(): Phase
      reads this
      requires Valid()
    {
      Phase(currentIndex, isDeleting)
    }

    constructor(text: string)
      ensures Valid() && fullText == text
      ensures displayText == "" && currentIndex == 0 && !isDeleting
    {
      fullText := text;
      displayText := "";
      currentIndex := 0;
      isDeleting := false;
    }

    /**
     * One run of the effect and of the timer it schedules: returns the
     * timer's delay and applies its callback.
     */
    method Step() returns (delay: nat)
      requires Valid()
      modifies this
      ensures Valid()
      ensures CurrentPhase() == NextPhase(old(CurrentPhase()), |fullText|)
      ensures delay == Delay(old(CurrentPhase()), |fullText|)
    {
      if !isDeleting && currentIndex < |fullText| {
        delay := TypingSpeed;
        displayText := fullText[..currentIndex + 1];
        currentIndex := currentIndex + 1;
      } else if isDeleting && currentIndex > 0 {
        delay := DeletingSpeed;
        displayText := fullText[..currentIndex - 1];
        currentIndex := currentIndex - 1;
      } else if currentIndex == |fullText| && !isDeleting {
        delay := HoldFull;
        isDeleting := true;
      } else {
        delay := HoldEmpty;
        isDeleting := false;
      }
    }
  }

  /** `sep` occurs in `s` starting at `k`. */
  predicate OccursAt(s: string, sep: string, k: nat)
  {
    k + |sep| <= |s| && s[k..k + |sep|] == sep
  }

  /** The first occurrence of `sep` in `s` at or after `from`. */
  function FirstOccurrence(s: string, sep: string, from: nat): (r: Option<nat>)
    requires from <= |s|
    ensures r.Some? ==> from <= r.value && OccursAt(s, sep, r.value)
    decreases |s| - from
  {
    if from + |sep| > |s| then None
    else if s[from..from + |sep|] == sep then Some(from)
    else if from == |s| then None
    else FirstOccurrence(s, sep, from + 1)
  }

  /** No occurrence is skipped: none lies before the one found, and none at all when none is found. */
  lemma {:induction false} FirstOccurrenceIsFirst(s: string, sep: string, from: nat, k: nat)
    requires from <= k <= |s|
    ensures FirstOccurrence(s, sep, from).Some? && k < FirstOccurrence(s, sep, from).value ==> !OccursAt(s, sep, k)
    ensures FirstOccurrence(s, sep, from).None? ==> !OccursAt(s, sep, k)
    decreases k - from
  {
    if from < k && from + |sep| <= |s| && s[from..from + |sep|] != sep {
      FirstOccurrenceIsFirst(s, sep, from + 1, k);
    }
  }

  /** `s.split(sep)` for a non-empty separator: the pieces between occurrences. */
  function Split(s: string, sep: string): (r: seq<string>)
    requires |sep| > 0
    ensures |r| >= 1
    decreases |s|
  {
    match FirstOccurrence(s, sep, 0)
    case None => [s]
    case Some(k) => [s[..k]] + Split(s[k + |sep|..], sep)
  }

  /** No piece of a split holds the separator. */
  lemma {:induction false} SplitPiecesFree(s: string, sep: string, i: nat, k: nat)
    requires |sep| > 0 && i < |Split(s, sep)|
    ensures !OccursAt(Split(s, sep)[i], sep, k)
    decreases |s|
  {
    var first := FirstOccurrence(s, sep, 0);
    if first.None? {
      if k <= |s| {
        FirstOccurrenceIsFirst(s, sep, 0, k);
      }
    } else {
      var j := first.value;
      var rest := s[j + |sep|..];
      if i == 0 {
        if OccursAt(s[..j], sep, k) {
          assert s[..j][k..k + |sep|] == s[k..k + |sep|];
          FirstOccurrenceIsFirst(s, sep, 0, k);
        }
      } else {
        assert Split(s, sep)[i] == Split(rest, sep)[i - 1];
        SplitPiecesFree(rest, sep, i - 1, k);
      }
    }
  }

  /** `pieces.join(sep)`. */
  function Join(pieces: seq<string>, sep: string): string
  {
    if pieces == [] then ""
    else if |pieces| == 1 then pieces[0]
    else pieces[0] + sep + Join(pieces[1..], sep)
  }

  /** An occurrence cuts `s` into the part before it, `sep`, and the part after it. */
  lemma Decompose(s: string, sep: string, k: nat)
    requires OccursAt(s, sep, k)
    ensures s == s[..k] + sep + s[k + |sep|..]
  {
    assert s[k..k + |sep|] == sep;
    assert s == s[..k] + s[k..k + |sep|] + s[k + |sep|..];
  }

  /** The pieces join back with a separator between each two. */
  lemma JoinCons(x: string, pieces: seq<string>, sep: string)
    requires |pieces| >= 1
    ensures Join([x] + pieces, sep) == x + sep + Join(pieces, sep)
  {
    assert ([x] + pieces)[1..] == pieces;
  }

  /** Splitting never yields an empty list, and joining the pieces gives `s` back. */
  lemma {:induction false} SplitJoin(s: string, sep: string)
    requires |sep| > 0
    ensures |Split(s, sep)| >= 1
    ensures Join(Split(s, sep), sep) == s
    decreases |s|
  {
    var first := FirstOccurrence(s, sep, 0);
    if first.Some? {
      var k := first.value;
      var rest := s[k + |sep|..];
      SplitJoin(rest, sep);
      JoinCons(s[..k], Split(rest, sep), sep);
      Decompose(s, sep, k);
    }
  }

  /** An occurrence of `sep` at `k` puts `sep[j]` at `k + j`. */
  lemma OccursChar(s: string, sep: string, k: nat, j: nat)
    requires j < |sep|
    ensures OccursAt(s, sep, k) ==> s[k + j] == sep[j]
  {
    if OccursAt(s, sep, k) {
      assert s[k..k + |sep|][j] == s[k + j];
    }
  }

  /**
   * A string with no `c` in it, when `c` is in `sep`, holds no occurrence
   * of `sep`.
   */
  lemma NoOccurrence(s: string, sep: string, j: nat)
    requires j < |sep| && sep[j] !in s
    ensures FirstOccurrence(s, sep, 0) == None
  {
    var first := FirstOccurrence(s, sep, 0);
    if first.Some? {
      var k := first.value;
      OccursChar(s, sep, k, j);
    }
  }

  /** Before `a` ends, position `k + j` of `a + sep + b` does not hold `sep[j]`. */
  lemma CharBefore(a: string, sep: string, b: string, j: nat, k: nat)
    requires j < |sep|
    requires forall i :: 0 <= i < |sep| && i != j ==> sep[i] != sep[j]
    requires sep[j] !in a
    requires k < |a|
    ensures (a + sep + b)[k + j] != sep[j]
  {
    var s := a + sep + b;
    if k + j < |a| {
      assert s[k + j] == a[k + j];
    } else {
      assert s[k + j] == sep[k + j - |a|];
    }
  }

  /**
   * `(a + sep + b).split(sep)` is `[a, b]` when some character of `sep`
   * occurs in it only once and in neither `a` nor `b`.
   */
  lemma SplitAround(a: string, sep: string, b: string, j: nat)
    requires j < |sep|
    requires forall i :: 0 <= i < |sep| && i != j ==> sep[i] != sep[j]
    requires sep[j] !in a && sep[j] !in b
    ensures Split(a + sep + b, sep) == [a, b]
  {
    var s := a + sep + b;
    assert OccursAt(s, sep, |a|) by {
      assert s[|a|..|a| + |sep|] == sep;
    }
    forall k: nat | k < |a|
      ensures !OccursAt(s, sep, k)
    {
      CharBefore(a, sep, b, j, k);
      OccursChar(s, sep, k, j);
    }
    var first := FirstOccurrence(s, sep, 0);
    FirstOccurrenceIsFirst(s, sep, 0, |a|);
    var k := first.value;
    assert k == |a|;
    assert s[..k] == a;
    assert s[k + |sep|..] == b;
    NoOccurrence(b, sep, j);
    assert Split(b, sep) == [b];
  }

  /** The name and the role the code card shows: the two halves of the headline. */
  lemma NameAndRole()
    ensures Split(FullText, " - ") == ["Nguyen Tien Dat", "Fullstack Dev"]
  {
    assert FullText == "Nguyen Tien Dat" + " - " + "Fullstack Dev";
    assert '-' !in "Nguyen Tien Dat";
    assert '-' !in "Fullstack Dev";
    SplitAround("Nguyen Tien Dat", " - ", "Fullstack Dev", 1);
  }
}
