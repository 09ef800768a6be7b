// Decoded wire data shared by the transport, the session and the load path.

/** Option and text helpers used across the project. */
module Basics {
  datatype Option<+T> = None | Some(value: T)

  /** The code points matched by JavaScript's `\s` and removed by `trim`. */
  predicate IsSpaceCode(n: int) {
    || 9 <= n <= 13 || n == 32 || n == 0xA0 || n == 0x1680 || 0x2000 <= n <= 0x200A
    || n == 0x2028 || n == 0x2029 || n == 0x202F || n == 0x205F || n == 0x3000 || n == 0xFEFF
  }

  predicate IsSpace(c: char) {
    IsSpaceCode(c as int)
  }

  function TrimStart(s: string): string {
    if |s| > 0 && IsSpace(s[0]) then TrimStart(s[1..]) else s
  }

  function TrimEnd(s: string): string {
    if |s| > 0 && IsSpace(s[|s| - 1]) then TrimEnd(s[..|s| - 1]) else s
  }

  function Trim(s: string): string {
    TrimEnd(TrimStart(s))
  }

  predicate AllSpace(s: string) {
    forall i :: 0 <= i < |s| ==> IsSpace(s[i])
  }

  /** No white space at either end. */
  predicate IsTrimmed(s: string) {
    s == "" || (!IsSpace(s[0]) && !IsSpace(s[|s| - 1]))
  }

  /** `Trim` removes white space around a text, whatever there is, and nothing else. */
  lemma TrimRemovesMargins(left: string, s: string, right: string)
    requires AllSpace(left) && IsTrimmed(s) && AllSpace(right)
    ensures Trim(left + s + right) == s
  {
    TrimStartDrops(left, s + right);
    assert left + s + right == left + (s + right);
    if s == "" {
      assert s + right == right;
      TrimStartDrops(right, "");
      assert right + "" == right;
    } else {
      TrimEndDrops(s, right);
    }
  }

  lemma {:induction false} TrimStartDrops(left: string, s: string)
    requires AllSpace(left)
    ensures TrimStart(left + s) == TrimStart(s)
    decreases |left|
  {
    if left == "" {
      assert left + s == s;
    } else {
      assert (left + s)[1..] == left[1..] + s;
      TrimStartDrops(left[1..], s);
    }
  }

  lemma {:induction false} TrimEndDrops(s: string, right: string)
    requires AllSpace(right)
    ensures TrimEnd(s + right) == TrimEnd(s)
    decreases |right|
  {
    if right == "" {
      assert s + right == s;
    } else {
      assert (s + right)[..|s + right| - 1] == s + right[..|right| - 1];
      TrimEndDrops(s, right[..|right| - 1]);
    }
  }

  lemma BlankIsAllSpace(s: string)
    ensures Trim(s) == "" <==> AllSpace(s)
  {
    var left, core, right := EveryTextHasMargins(s);
    TrimRemovesMargins(left, core, right);
    if core != "" {
      assert s[|left|] == core[0];
    }
  }

  /** Every text is white space, a trimmed text, and white space. */
  lemma {:induction false} EveryTextHasMargins(s: string) returns (left: string, core: string, right: string)
    ensures s == left + core + right
    ensures AllSpace(left) && IsTrimmed(core) && AllSpace(right)
    decreases |s|
  {
    if s == "" || IsTrimmed(s) {
      left, core, right := "", s, "";
    } else if IsSpace(s[0]) {
      left, core, right := EveryTextHasMargins(s[1..]);
      left := [s[0]] + left;
    } else {
      left, core, right := EveryTextHasMargins(s[..|s| - 1]);
      right := right + [s[|s| - 1]];
    }
  }

  predicate NoRepeats<T(==)>(xs: seq<T>) {
    forall j, k :: 0 <= j < k < |xs| ==> xs[j] != xs[k]
  }
}

/** Agda's responses after JSON decoding and normalisation. */
module Wire {
  import opened Basics

  datatype VisibleGoal = VisibleGoal(goalId: int, goalType: string)

  /** The payload of a DisplayInfo response. */
  datatype Info =
    | AllGoalsWarnings(visibleGoals: seq<VisibleGoal>, invisibleGoals: nat,
                       warnings: seq<string>, errors: seq<string>)
    | ErrorInfo(message: string)
    | GoalSpecific(goalInfo: Info)
    | OtherInfo(kind: string)

  datatype Response =
    | Status
    | InteractionPoints(ids: seq<int>)
    | DisplayInfo(info: Info)
    | StderrOutput(text: string)
    | DoneAborting
    | DoneExiting
    | Other(kind: string)

  /** Emitted only in answer to an abort or an exit. */
  predicate IsControlEcho(r: Response) {
    r.DoneAborting? || r.DoneExiting?
  }
}
