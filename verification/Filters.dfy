/** The filters applied to touch coordinates and to scroll history. */
module Filters {
  import opened CArith

  function Sum(s: seq<int>): int {
    if s == [] then 0 else s[0] + Sum(s[1..])
  }

  lemma {:induction false} SumConcat(a: seq<int>, b: seq<int>)
    ensures Sum(a + b) == Sum(a) + Sum(b)
  {
    if a == [] {
      assert a + b == b;
    } else {
      assert (a + b)[1..] == a[1..] + b;
      SumConcat(a[1..], b);
    }
  }

  /** The last n of a sequence of inputs, or all if there are fewer. */
  function Last(s: seq<int>, n: nat): seq<int> {
    if |s| <= n then s else s[|s| - n..]
  }

  /** The mean as the filter computes it. */
  function Mean(s: seq<int>): int
    requires s != []
  {
    CDiv(Sum(s), |s|)
  }

  lemma {:induction false} SumBetween(s: seq<int>, low: int, high: int)
    requires forall i :: 0 <= i < |s| ==> low <= s[i] <= high
    ensures |s| * low <= Sum(s) <= |s| * high
  {
    if s != [] {
      SumBetween(s[1..], low, high);
      assert |s| * low == low + (|s| - 1) * low && |s| * high == high + (|s| - 1) * high;
    }
  }

  // A truncated quotient of a value between n * low and n * high lies between them.
  lemma QuotientBetween(a: int, n: int, low: int, high: int)
    requires n > 0 && n * low <= a <= n * high
    ensures low <= CDiv(a, n) <= high
  {
    CDivMod(a, n);
    var q, r := CDiv(a, n), CMod(a, n);
    Subtract(n, low, q);
    Subtract(n, high, q);
    MultipleApart(n, low - q);
    MultipleApart(n, high - q);
  }

  // The mean stays between the least and the greatest of the inputs it is over.
  lemma MeanBetween(s: seq<int>, low: int, high: int)
    requires s != [] && forall i :: 0 <= i < |s| ==> low <= s[i] <= high
    ensures low <= Mean(s) <= high
  {
    SumBetween(s, low, high);
    QuotientBetween(Sum(s), |s|, low, high);
  }

  /** The unweighted average of the last N inputs. */
  class SimpleAverage {
    const N: nat
    const buffer: array<int>
    var count: nat
    var sum: int
    var index: nat

    /** The inputs the average is over, oldest first. */
    ghost function Window(): (s: seq<int>)
      requires Shape()
      reads this, buffer
      ensures |s| == count
    {
      if count < N then buffer[..count] else buffer[index..] + buffer[..index]
    }

    ghost predicate Shape()
      reads this
    {
      N > 0 && buffer.Length == N && index < N && count <= N && (count < N ==> index == count)
    }

    ghost predicate Valid()
      reads this, buffer
    {
      Shape() && sum == Int32(Sum(Window()))
    }

    constructor (n: nat)
      requires n > 0
      ensures Valid() && N == n && Window() == [] && fresh(buffer)
    {
      N, buffer := n, new int[n];
      count, sum, index := 0, 0, 0;
    }

    method Reset()
      requires Valid()
      modifies this`count, this`sum, this`index
      ensures Valid() && Window() == []
    {
      count, sum, index := 0, 0, 0;
    }

    /** A new input takes its place in the window, the oldest leaving if it is full;
        the result is the mean if the sum fits the 32 bits it is kept in. */
    method Filter(data: int) returns (average: int)
      requires Valid()
      modifies this`count, this`sum, this`index, buffer
      ensures Valid() && Window() == Last(old(Window()) + [data], N)
      ensures average == CDiv(Int32(Sum(Window())), |Window()|)
      ensures Fits32(Sum(Window())) ==> average == Mean(Window())
    {
      ghost var was := Window();
      SumLast(was, data, N);
      CutOnce(Sum(was), data);
      sum := Int32(sum + data);
      if count == N {
        CutOnce(Sum(was) + data, was[0]);
        sum := Int32(sum - buffer[index]);
      }
      Put(data);
      CutOnce(Sum(Window()), 0);
      average := CDiv(sum, count);
    }

    /** Puts an input at the index and moves it on. */
    method Put(data: int)
      requires Shape()
      modifies this`count, this`index, buffer
      ensures Shape() && count > 0 && Window() == Last(old(Window()) + [data], N)
    {
      ghost var was := Window();
      assert count == N ==> was == [buffer[index]] + was[1..] && (was + [data])[1..] == was[1..] + [data];
      buffer[index] := data;
      index := index + 1;
      if index >= N {
        index := 0;
      }
      if count < N {
        count := count + 1;
      }
      assert Window() == Last(was + [data], N);
    }

    method Oldest() returns (data: int)
      requires Valid()
      ensures data == if Window() == [] then 0 else Window()[0]
    {
      if count == 0 {
        return 0;
      }
      data := if count < N then buffer[0] else buffer[index];
    }

    method Newest() returns (data: int)
      requires Valid()
      ensures data == if Window() == [] then 0 else Window()[|Window()| - 1]
    {
      if count == 0 {
        return 0;
      }
      var i: int := index - 1;
      if i < 0 {
        i := count - 1;
      }
      data := buffer[i];
    }

    method Average() returns (average: int)
      requires Valid()
      ensures average == if Window() == [] then 0 else CDiv(Int32(Sum(Window())), |Window()|)
      ensures Window() != [] && Fits32(Sum(Window())) ==> average == Mean(Window())
    {
      CutOnce(Sum(Window()), 0);
      average := if count == 0 then 0 else CDiv(sum, count);
    }

    /** A whole series of inputs: the window is the last N of them. */
    method FilterAll(inputs: seq<int>)
      requires Valid()
      modifies this`count, this`sum, this`index, buffer
      ensures Valid() && Window() == Last(old(Window()) + inputs, N)
    {
      ghost var start := Window();
      assert start + [] == start;
      for i := 0 to |inputs|
        invariant Valid() && Window() == Last(start + inputs[..i], N)
      {
        LastOfLast(start + inputs[..i], inputs[i], N);
        OneMore(start, inputs, i);
        var _ := Filter(inputs[i]);
      }
      assert inputs[..|inputs|] == inputs;
    }
  }

  lemma OneMore(start: seq<int>, inputs: seq<int>, i: nat)
    requires i < |inputs|
    ensures start + inputs[..i] + [inputs[i]] == start + inputs[..i + 1]
  {
  }

  // The sum of the window, kept up to date by one addition and one subtraction.
  lemma SumLast(s: seq<int>, x: int, n: nat)
    requires n > 0 && |s| <= n
    ensures Sum(Last(s + [x], n)) == Sum(s) + x - (if |s| == n then s[0] else 0)
  {
    SumConcat(s, [x]);
    assert Sum([x]) == x + Sum([]);
    if |s| == n {
      assert (s + [x])[1..] == s[1..] + [x];
    }
  }

  lemma LastOfLast(s: seq<int>, x: int, n: nat)
    requires n > 0
    ensures Last(Last(s, n) + [x], n) == Last(s + [x], n)
  {
  }

  // ---- Undoing the touchpad's own decaying average

  datatype Memory = Fresh | Holding(last: int)

  /** Half the input and half the last output. */
  class DecayingAverage {
    var memory: Memory

    constructor ()
      ensures memory == Fresh
    {
      memory := Fresh;
    }

    method Filter(data: int) returns (result: int)
      modifies this
      ensures memory == Holding(result)
      ensures result == if old(memory).Fresh? then data else CDiv(data, 2) + CDiv(old(memory).last, 2)
    {
      result := data;
      if memory.Holding? {
        result := CDiv(result * 1, 2) + CDiv(memory.last * 1, 2);
      }
      memory := Holding(result);
    }
  }

  class UndecayAverage {
    var memory: Memory

    constructor ()
      ensures memory == Fresh
    {
      memory := Fresh;
    }

    method Filter(data: int) returns (result: int)
      modifies this
      ensures memory == Holding(data)
      ensures result == if old(memory).Fresh? then data else 2 * data - old(memory).last
    {
      result := data;
      if memory.Holding? {
        result := CDiv(result * 2, 1) - CDiv(memory.last * 1, 1);
      }
      memory := Holding(data);
    }
  }

  // Undoing one step of the average leaves the two halving remainders, and no more.
  lemma UndecayRecovers(data: int, last: int)
    ensures var e := CDiv(data, 2) + CDiv(last, 2);
            2 * e - last == data - CMod(data, 2) - CMod(last, 2) && -2 <= 2 * e - last - data <= 2
  {
    CDivMod(data, 2);
    CDivMod(last, 2);
  }

  /** A series through both filters: each output is within 2 of its input, however
      long the series; the error does not accumulate. */
  method DecayThenUndo(inputs: seq<int>) returns (outputs: seq<int>)
    ensures |outputs| == |inputs|
    ensures forall i :: 0 <= i < |inputs| ==> -2 <= outputs[i] - inputs[i] <= 2
  {
    var decay := new DecayingAverage();
    var undo := new UndecayAverage();
    outputs := [];
    for i := 0 to |inputs|
      invariant |outputs| == i && decay.memory == undo.memory
      invariant forall j :: 0 <= j < i ==> -2 <= outputs[j] - inputs[j] <= 2
    {
      if decay.memory.Holding? {
        UndecayRecovers(inputs[i], decay.memory.last);
      }
      var smooth := decay.Filter(inputs[i]);
      var restored := undo.Filter(smooth);
      outputs := outputs + [restored];
    }
  }
}
