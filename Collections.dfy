/** `split_list_into_chunks`: consecutive chunks of `chunk_size` elements,
    followed by one trailing remainder chunk. The remainder slice ends at
    index -1, so the element at the end of the list never reaches any chunk
    unless the list divides evenly; `SplitIntoChunks` is the evidently
    intended definition, and the one the rest of the model would use. */
module Collections {
  import opened Common

  /** Python's `a // b` (floor division) for a non-zero divisor. */
  function FloorDiv(a: int, b: int): (q: int)
    requires b != 0
    ensures b > 0 ==> q * b <= a < q * b + b
    ensures b < 0 ==> q * b >= a > q * b + b
  {
    if b < 0 && a % b != 0 then a / b - 1 else a / b
  }

  /** Python's `max(i, 0)`-clamped slice bound: a negative `i` counts from the end. */
  function SliceBound(i: int, n: nat): (b: nat)
    ensures b <= n
    ensures 0 <= i <= n ==> b == i
    ensures i < 0 && i + n >= 0 ==> b == n + i
  {
    if i < 0 then (if i + n < 0 then 0 else i + n) else if i > n then n else i
  }

  /** Python's `s[lo:hi]` with a step of one. */
  function PySlice<T>(s: seq<T>, lo: int, hi: int): (r: seq<T>)
    ensures SliceBound(lo, |s|) < SliceBound(hi, |s|) ==> r == s[SliceBound(lo, |s|)..SliceBound(hi, |s|)]
    ensures SliceBound(lo, |s|) >= SliceBound(hi, |s|) ==> r == []
  {
    var a, b := SliceBound(lo, |s|), SliceBound(hi, |s|);
    if a < b then s[a..b] else []
  }

  /** Concatenation of a list of lists. */
  function Flatten<T>(ss: seq<seq<T>>): seq<T>
  {
    if |ss| == 0 then [] else ss[0] + Flatten(ss[1..])
  }

  lemma {:induction false} FlattenAppend<T>(ss: seq<seq<T>>, t: seq<T>)
    ensures Flatten(ss + [t]) == Flatten(ss) + t
  {
    if |ss| == 0 {
      assert ss + [t] == [t];
    } else {
      assert (ss + [t])[1..] == ss[1..] + [t];
      FlattenAppend(ss[1..], t);
    }
  }

  /** The comprehension over `range(0, n * c, c)`: every full chunk of `c`
      elements, taken from the front. */
  function FullChunks<T>(s: seq<T>, c: nat): (r: seq<seq<T>>)
    requires c > 0
    ensures |r| * c <= |s| < |r| * c + c
    ensures forall k :: 0 <= k < |r| ==> |r[k]| == c
    ensures Flatten(r) == s[..|r| * c]
  {
    if |s| < c then []
    else
      var rest := FullChunks(s[c..], c);
      assert s[..c] + s[c..][..|rest| * c] == s[..(1 + |rest|) * c];
      [s[..c]] + rest
  }

  /** Chunk `k` of the comprehension is the slice of `c` elements starting at `k * c`. */
  lemma {:induction false} FullChunkSlice<T>(s: seq<T>, c: nat, k: nat)
    requires c > 0 && k < |FullChunks(s, c)|
    ensures k * c + c <= |s| && FullChunks(s, c)[k] == s[k * c..k * c + c]
  {
    if k > 0 {
      FullChunkSlice(s[c..], c, k - 1);
      var a := (k - 1) * c;
      MulSucc(k - 1, c);
      assert FullChunks(s, c)[k] == FullChunks(s[c..], c)[k - 1];
      assert s[c..][a..a + c] == s[a + c..a + c + c];
    }
  }

  /** The number of full chunks is `len // c`. */
  lemma FullChunksCount<T>(s: seq<T>, c: nat)
    requires c > 0
    ensures |FullChunks(s, c)| == FloorDiv(|s|, c)
  {
    var n, q := |FullChunks(s, c)|, FloorDiv(|s|, c);
    assert n * c <= |s| < n * c + c;
    assert q * c <= |s| < q * c + c;
    if n < q {
      MulMonotone(n + 1, q, c);
      MulSucc(n, c);
    } else if q < n {
      MulMonotone(q + 1, n, c);
      MulSucc(q, c);
    }
  }

  lemma MulSucc(k: int, c: int)
    ensures (k + 1) * c == k * c + c
  {
  }

  lemma MulMonotone(a: int, b: int, c: nat)
    requires a <= b
    ensures a * c <= b * c
  {
  }

  /** `split_list_into_chunks(target_list, chunk_size)` as written: the last
      slice ends at -1. A zero chunk size raises on the floor division. */
  function SplitListIntoChunks<T>(s: seq<T>, c: int): Result<seq<seq<T>>>
  {
    if c == 0 then Raised("ZeroDivisionError", "integer division or modulo by zero")
    else
      var n := FloorDiv(|s|, c);
      var full := if c > 0 then FullChunks(s, c) else [];
      Ok(full + [PySlice(s, n * c, -1)])
  }

  /** For a positive divisor, `len % c` is what the full chunks leave over. */
  lemma FloorDivMod(a: nat, c: int)
    requires c > 0
    ensures FloorDiv(a, c) * c + a % c == a
  {
  }

  /** The shape of the result for a positive chunk size: `len // c` full
      chunks, each the consecutive slice at `k * c`, then a last chunk that
      runs from `len - len % c` to the second-to-last element and so is
      shorter than `c`. */
  lemma ChunksShape<T>(s: seq<T>, c: int)
    requires c > 0
    ensures SplitListIntoChunks(s, c).Ok?
    ensures |SplitListIntoChunks(s, c).value| == FloorDiv(|s|, c) + 1
    ensures forall k :: 0 <= k < FloorDiv(|s|, c) ==>
              k * c + c <= |s| && SplitListIntoChunks(s, c).value[k] == s[k * c..k * c + c]
    ensures var r := SplitListIntoChunks(s, c).value;
            |r[|r| - 1]| < c && r[|r| - 1] == if |s| % c != 0 then s[|s| - |s| % c..|s| - 1] else []
  {
    var full := FullChunks(s, c);
    FullChunksCount(s, c);
    FloorDivMod(|s|, c);
    var n := |full|;
    var m := n * c;
    var r := SplitListIntoChunks(s, c).value;
    assert r == full + [PySlice(s, m, -1)];
    forall k | 0 <= k < n
      ensures k * c + c <= |s| && r[k] == s[k * c..k * c + c]
    {
      FullChunkSlice(s, c, k);
    }
    assert m == |s| - |s| % c && |r| - 1 == n;
    if |s| % c != 0 {
      assert r[n] == s[m..|s| - 1];
    } else {
      assert r[n] == [];
    }
  }

  /** Concatenating the chunks gives back the input minus its last element
      when `len % c != 0`, and the whole input otherwise. */
  lemma FlattenChunks<T>(s: seq<T>, c: int)
    requires c > 0
    ensures SplitListIntoChunks(s, c).Ok?
    ensures Flatten(SplitListIntoChunks(s, c).value) == if |s| % c != 0 then s[..|s| - 1] else s
  {
    var full := FullChunks(s, c);
    FullChunksCount(s, c);
    FloorDivMod(|s|, c);
    var n := |full|;
    var m := n * c;
    var last := PySlice(s, m, -1);
    assert SplitListIntoChunks(s, c).value == full + [last];
    FlattenAppend(full, last);
    if |s| % c != 0 {
      assert s[..m] + s[m..|s| - 1] == s[..|s| - 1];
    } else {
      assert s[..m] == s;
    }
  }

  /** A negative chunk size makes the comprehension's range empty and the
      remainder slice start past the end: the result is a single empty chunk. */
  lemma NegativeChunkSize<T>(s: seq<T>, c: int)
    requires c < 0
    ensures SplitListIntoChunks(s, c) == Ok([[]])
  {
    var m := FloorDiv(|s|, c) * c;
    assert m >= |s|;
    assert PySlice(s, m, -1) == [];
    assert SplitListIntoChunks(s, c).value == [] + [PySlice(s, m, -1)];
    assert SplitListIntoChunks(s, c).Ok?;
    assert SplitListIntoChunks(s, c).value == [[]];
  }

  /** An empty list yields one empty chunk for any non-zero chunk size. */
  lemma EmptyInput<T>(s: seq<T>, c: int)
    requires |s| == 0 && c != 0
    ensures SplitListIntoChunks(s, c) == Ok([[]])
  {
    var m := FloorDiv(|s|, c) * c;
    assert PySlice(s, m, -1) == [];
    if c > 0 {
      assert FullChunks(s, c) == [];
    }
    assert SplitListIntoChunks(s, c).value == [] + [PySlice(s, m, -1)];
    assert SplitListIntoChunks(s, c).Ok?;
    assert SplitListIntoChunks(s, c).value == [[]];
  }

  /** The discrepancy on a concrete input: `[1, 2, 3]` in chunks of 2 gives
      `[[1, 2], []]`, and the 3 is lost. */
  lemma DropsLastElement()
    ensures SplitListIntoChunks([1, 2, 3], 2) == Ok([[1, 2], []])
    ensures 3 !in Flatten(SplitListIntoChunks([1, 2, 3], 2).value)
  {
    var s := [1, 2, 3];
    assert s[..2] == [1, 2] && s[2..] == [3];
    assert FullChunks([3], 2) == [];
    assert FullChunks(s, 2) == [s[..2]] + FullChunks(s[2..], 2);
    assert FloorDiv(3, 2) == 1;
    assert PySlice(s, 2, -1) == [];
    assert SplitListIntoChunks(s, 2).Ok?;
    assert SplitListIntoChunks(s, 2).value == [[1, 2]] + [[]] == [[1, 2], []];
    FlattenChunks([1, 2, 3], 2);
    assert [1, 2, 3][..2] == [1, 2];
  }

  /** The evidently intended split: the remainder slice runs to the end of the list. */
  function SplitIntoChunks<T>(s: seq<T>, c: int): Result<seq<seq<T>>>
  {
    if c == 0 then Raised("ZeroDivisionError", "integer division or modulo by zero")
    else
      var n := FloorDiv(|s|, c);
      var full := if c > 0 then FullChunks(s, c) else [];
      Ok(full + [PySlice(s, n * c, |s|)])
  }

  /** The intended split keeps every element in order. */
  lemma SplitIntoChunksRoundTrip<T>(s: seq<T>, c: int)
    requires c > 0
    ensures SplitIntoChunks(s, c).Ok? && Flatten(SplitIntoChunks(s, c).value) == s
  {
    var full := FullChunks(s, c);
    FullChunksCount(s, c);
    var m := |full| * c;
    assert m <= |s|;
    var last := PySlice(s, m, |s|);
    assert last == s[m..];
    assert SplitIntoChunks(s, c).value == full + [last];
    FlattenAppend(full, last);
    assert s[..m] + s[m..] == s;
  }

  /** The intended split differs from the code as written only in its last
      chunk, which still has fewer than `c` elements. */
  lemma SplitIntoChunksAgrees<T>(s: seq<T>, c: int)
    requires c > 0
    ensures SplitIntoChunks(s, c).Ok? && SplitListIntoChunks(s, c).Ok?
    ensures |SplitIntoChunks(s, c).value| == |SplitListIntoChunks(s, c).value| == FloorDiv(|s|, c) + 1
    ensures SplitIntoChunks(s, c).value[..FloorDiv(|s|, c)] == SplitListIntoChunks(s, c).value[..FloorDiv(|s|, c)]
    ensures |SplitIntoChunks(s, c).value[FloorDiv(|s|, c)]| < c
  {
    var full := FullChunks(s, c);
    FullChunksCount(s, c);
    var n := |full|;
    var m := n * c;
    assert SplitIntoChunks(s, c).value == full + [PySlice(s, m, |s|)];
    assert SplitListIntoChunks(s, c).value == full + [PySlice(s, m, -1)];
    assert |PySlice(s, m, |s|)| == |s| - m < c;
  }
}
