/**
 * Splitting a key combination such as "Control+Shift+KeyA" into the keys to
 * press (common/keyboard.go, split). A '+' separates two keys only when the
 * key being collected already holds a character; otherwise it is itself the
 * key, so "+" is the plus key and "Control++" is Control with plus.
 */
module ComboKeys {

  /** The split state machine: `acc` is the key collected so far, `rest` the unread input. */
  function SplitFrom(acc: string, rest: string): (r: seq<string>)
    ensures |r| >= 1
    decreases |rest|
  {
    if rest == [] then [acc]
    else if rest[0] == '+' && |acc| > 0 then [acc] + SplitFrom("", rest[1..])
    else SplitFrom(acc + [rest[0]], rest[1..])
  }

  function Split(keys: string): (r: seq<string>)
    ensures |r| >= 1
  {
    SplitFrom("", keys)
  }

  /** The segments joined back with '+'. */
  function Join(segs: seq<string>): string
    requires |segs| >= 1
  {
    if |segs| == 1 then segs[0] else segs[0] + "+" + Join(segs[1..])
  }

  /** No '+' after the first character. */
  predicate PlusOnlyFirst(s: string)
  {
    forall j :: 0 < j < |s| ==> s[j] != '+'
  }

  /**
   * The shape of every split: at least one segment, every segment but the
   * last non-empty, and a '+' only ever as a segment's first character.
   */
  predicate WellSplit(segs: seq<string>)
  {
    && |segs| >= 1
    && (forall i :: 0 <= i < |segs| - 1 ==> segs[i] != "")
    && (forall i :: 0 <= i < |segs| ==> PlusOnlyFirst(segs[i]))
  }

  lemma {:induction false} SplitFromJoin(acc: string, rest: string)
    ensures Join(SplitFrom(acc, rest)) == acc + rest
    decreases |rest|
  {
    if rest == [] {
    } else if rest[0] == '+' && |acc| > 0 {
      var t := SplitFrom("", rest[1..]);
      SplitFromJoin("", rest[1..]);
      assert ([acc] + t)[1..] == t;
      assert acc + "+" + rest[1..] == acc + rest;
    } else {
      SplitFromJoin(acc + [rest[0]], rest[1..]);
      assert acc + [rest[0]] + rest[1..] == acc + rest;
    }
  }

  /** Joining the segments with '+' gives back the input. */
  lemma SplitJoin(keys: string)
    ensures Join(Split(keys)) == keys
  {
    SplitFromJoin("", keys);
  }

  lemma {:induction false} SplitFromWellSplit(acc: string, rest: string)
    requires PlusOnlyFirst(acc)
    ensures WellSplit(SplitFrom(acc, rest))
    decreases |rest|
  {
    if rest == [] {
    } else if rest[0] == '+' && |acc| > 0 {
      SplitFromWellSplit("", rest[1..]);
      var t := SplitFrom("", rest[1..]);
      var r := [acc] + t;
      assert forall i :: 1 <= i < |r| ==> r[i] == t[i - 1];
    } else {
      SplitFromWellSplit(acc + [rest[0]], rest[1..]);
    }
  }

  /** Every split has the shape WellSplit describes. */
  lemma SplitWellSplit(keys: string)
    ensures WellSplit(Split(keys))
  {
    SplitFromWellSplit("", keys);
  }

  /** Characters that cannot end the collected key are simply collected. */
  lemma {:induction false} Absorb(acc: string, w: string, rest: string)
    requires forall j :: 0 <= j < |w| && w[j] == '+' ==> j == 0 && acc == ""
    ensures SplitFrom(acc, w + rest) == SplitFrom(acc + w, rest)
    decreases |w|
  {
    if w != [] {
      assert (w + rest)[0] == w[0];
      assert (w + rest)[1..] == w[1..] + rest;
      assert !(w[0] == '+' && |acc| > 0);
      assert SplitFrom(acc, w + rest) == SplitFrom(acc + [w[0]], w[1..] + rest);
      assert forall j :: 0 <= j < |w[1..]| ==> w[1..][j] == w[j + 1];
      Absorb(acc + [w[0]], w[1..], rest);
      assert acc + [w[0]] + w[1..] == acc + w;
    } else {
      assert w + rest == rest && acc + w == acc;
    }
  }

  /** Splitting a well-shaped list of segments after joining it gives the segments back. */
  lemma {:induction false} JoinSplit(segs: seq<string>)
    requires WellSplit(segs)
    ensures Split(Join(segs)) == segs
    decreases |segs|
  {
    var s := segs[0];
    assert PlusOnlyFirst(s);
    if |segs| == 1 {
      Absorb("", s, "");
      assert s + "" == s && "" + s == s;
    } else {
      var t := segs[1..];
      assert forall i :: 0 <= i < |t| ==> t[i] == segs[i + 1];
      JoinSplit(t);
      assert s != "";
      Absorb("", s, "+" + Join(t));
      assert "" + s == s;
      assert s + "+" + Join(t) == s + ("+" + Join(t));
      var rest := "+" + Join(t);
      assert rest[0] == '+' && rest[1..] == Join(t);
      assert segs == [s] + t;
    }
  }

  /** The split is the only well-shaped list of segments that joins to the input. */
  lemma SplitUnique(keys: string, segs: seq<string>)
    requires WellSplit(segs) && Join(segs) == keys
    ensures Split(keys) == segs
  {
    JoinSplit(segs);
  }

  /** The fixed outputs for the plus key on its own and repeated. */
  lemma SplitPlusExamples()
    ensures Split("+") == ["+"]
    ensures Split("++") == ["+", ""]
    ensures Split("+++") == ["+", "+"]
    ensures Split("a+b") == ["a", "b"]
  {
    assert "+"[1..] == "";
    assert "++"[1..] == "+";
    assert "+++"[1..] == "++";
    assert "a+b"[1..] == "+b" && "+b"[1..] == "b";
    assert "" + ['+'] == "+" && "" + ['a'] == "a" && "" + ['b'] == "b";
    assert SplitFrom("", "+") == SplitFrom("+", "");
    assert SplitFrom("", "++") == SplitFrom("+", "+") == ["+"] + SplitFrom("", "");
    assert SplitFrom("", "+++") == SplitFrom("+", "++") == ["+"] + SplitFrom("", "+");
    assert SplitFrom("", "a+b") == SplitFrom("a", "+b") == ["a"] + SplitFrom("", "b");
    assert SplitFrom("", "b") == SplitFrom("b", "");
  }

  /** The elements of a sequence in reverse order. */
  function Reverse<T>(s: seq<T>): (r: seq<T>)
    ensures |r| == |s|
    ensures forall i :: 0 <= i < |s| ==> r[i] == s[|s| - 1 - i]
  {
    seq(|s|, i requires 0 <= i < |s| => s[|s| - 1 - i])
  }

  /** Reversing twice gives the sequence back. */
  lemma ReverseReverse<T>(s: seq<T>)
    ensures Reverse(Reverse(s)) == s
  {
  }

  /** Reversal distributes over concatenation, swapping the parts. */
  lemma ReverseAppend<T>(x: seq<T>, y: seq<T>)
    ensures Reverse(x + y) == Reverse(y) + Reverse(x)
  {
  }
}
