/** Where the detector finds peaks: `Peak_finder::find_peak_bin` and the part of `find_peaks` that
    steps from one peak to the next. The specification has no `awaiting_rise` flag: a search that
    starts right after a peak only accepts a bin once the signal has stopped falling. */
module PeakScan {
  import opened Options
  import opened Sequences

  /** Above the threshold and strictly above the next bin. */
  predicate Drops(data: seq<real>, threshold: real, m: int)
    requires 0 <= m && m + 1 < |data|
  {
    data[m] > threshold && data[m + 1] < data[m]
  }

  /** Somewhere in `[lo, hi)` the signal does not fall. */
  predicate StopsFalling(data: seq<real>, lo: int, hi: int)
    requires 0 <= lo && hi < |data|
  {
    exists r :: lo <= r < hi && data[r] <= data[r + 1]
  }

  /** Bin `m` is a peak for a search from `from` that may have to await a rise first. */
  predicate IsCandidate(data: seq<real>, threshold: real, from: int, awaiting: bool, m: int)
    requires 0 <= from && 0 <= m && m + 1 < |data|
  {
    Drops(data, threshold, m) && (awaiting ==> StopsFalling(data, from, m))
  }

  ghost predicate NoCandidate(data: seq<real>, threshold: real, from: int, awaiting: bool, end: int)
    requires 0 <= from && end < |data|
  {
    forall m :: from <= m < end ==> !IsCandidate(data, threshold, from, awaiting, m)
  }

  /** The first candidate in `[m, last]` of a search from `from`. */
  function Next(data: seq<real>, threshold: real, from: int, awaiting: bool, m: int, last: int): (p: Option<int>)
    requires 0 <= from <= m && last + 1 < |data|
    ensures p.Some? ==> m <= p.value <= last && IsCandidate(data, threshold, from, awaiting, p.value)
    ensures p.Some? ==> forall k :: m <= k < p.value ==> !IsCandidate(data, threshold, from, awaiting, k)
    ensures p.None? ==> forall k :: m <= k <= last ==> !IsCandidate(data, threshold, from, awaiting, k)
    decreases last - m
  {
    if m > last then None
    else if IsCandidate(data, threshold, from, awaiting, m) then Some(m)
    else Next(data, threshold, from, awaiting, m + 1, last)
  }

  /** All the peaks: each search goes on `n` bins after the peak before it and awaits a rise. */
  function Scan(data: seq<real>, threshold: real, n: int, from: int, awaiting: bool, last: int): (peaks: seq<int>)
    requires 0 <= from && last + 1 < |data| && n > 0
    decreases last - from
  {
    match Next(data, threshold, from, awaiting, from, last)
    case None => []
    case Some(p) => [p] + Scan(data, threshold, n, p + n, true, last)
  }

  lemma ScanUnfolds(data: seq<real>, threshold: real, n: int, from: int, awaiting: bool, last: int)
    requires 0 <= from && last + 1 < |data| && n > 0
    ensures match Next(data, threshold, from, awaiting, from, last)
            case None => Scan(data, threshold, n, from, awaiting, last) == []
            case Some(p) =>
              Scan(data, threshold, n, from, awaiting, last) == [p] + Scan(data, threshold, n, p + n, true, last)
  {
    hide Next;
  }

  /** What `Next` promises pins it down. */
  lemma {:induction false} NextIsFirst(data: seq<real>, threshold: real, from: int, awaiting: bool, last: int, p: int)
    requires 0 <= from <= p <= last && last + 1 < |data|
    requires IsCandidate(data, threshold, from, awaiting, p) && NoCandidate(data, threshold, from, awaiting, p)
    ensures Next(data, threshold, from, awaiting, from, last) == Some(p)
  {
    var q := Next(data, threshold, from, awaiting, from, last);
    assert q.Some?;
    assert !(q.value < p) && !(p < q.value);
  }

  // ---------- Soundness ----------

  /** A peak at `p` can be trusted: it is above threshold and its right neighbour, and unless it is
      the very first bin looked at, it is no lower than its left neighbour. */
  ghost predicate Sound(data: seq<real>, threshold: real, from: int, p: int, last: int)
    requires 0 <= from && last + 1 < |data|
  {
    from <= p <= last && Drops(data, threshold, p) && (p > from ==> data[p - 1] <= data[p])
  }

  /** If the signal falls to a candidate, the bin before it is a candidate too. */
  lemma FallMakesCandidate(data: seq<real>, threshold: real, from: int, awaiting: bool, p: int)
    requires 0 <= from < p && p + 1 < |data| && IsCandidate(data, threshold, from, awaiting, p)
    ensures data[p - 1] > data[p] ==> IsCandidate(data, threshold, from, awaiting, p - 1)
  {
    if data[p - 1] > data[p] && awaiting {
      var r :| from <= r < p && data[r] <= data[r + 1];
      assert r != p - 1;
      assert StopsFalling(data, from, p - 1);
    }
  }

  /** In a search, a candidate that is not at its start is no lower than its left neighbour; a search
      that awaits a rise has no candidate at its start. */
  lemma {:induction false} FirstCandidateIsSound(data: seq<real>, threshold: real, from: int, awaiting: bool, last: int)
    requires 0 <= from && last + 1 < |data|
    requires Next(data, threshold, from, awaiting, from, last).Some?
    ensures var p := Next(data, threshold, from, awaiting, from, last).value;
            Sound(data, threshold, from, p, last) && (awaiting ==> p > from && StopsFalling(data, from, p))
  {
    hide Next;
    var p := Next(data, threshold, from, awaiting, from, last).value;
    if p > from {
      FallMakesCandidate(data, threshold, from, awaiting, p);
    }
  }

  lemma {:induction false} ScanIsSound(data: seq<real>, threshold: real, n: int, from: int, awaiting: bool,
                                       last: int, i: nat)
    requires 0 <= from && last + 1 < |data| && n > 0
    requires i < |Scan(data, threshold, n, from, awaiting, last)|
    ensures var p := Scan(data, threshold, n, from, awaiting, last)[i];
            && from <= p <= last && data[p] > threshold && data[p + 1] < data[p]
            && (p > from ==> data[p - 1] <= data[p])
    decreases last - from
  {
    hide Next, Scan;
    ScanUnfolds(data, threshold, n, from, awaiting, last);
    FirstCandidateIsSound(data, threshold, from, awaiting, last);
    if i > 0 {
      var p := Next(data, threshold, from, awaiting, from, last).value;
      ScanIsSound(data, threshold, n, p + n, true, last, i - 1);
      ScanAwaitsRise(data, threshold, n, p + n, last, i - 1);
    }
  }

  lemma {:induction false} ScanAwaitsRise(data: seq<real>, threshold: real, n: int, from: int, last: int, i: nat)
    requires 0 <= from && last + 1 < |data| && n > 0
    requires i < |Scan(data, threshold, n, from, true, last)|
    ensures Scan(data, threshold, n, from, true, last)[i] > from
    decreases last - from
  {
    FirstCandidateIsSound(data, threshold, from, true, last);
    if i > 0 {
      ScanAwaitsRise(data, threshold, n, Next(data, threshold, from, true, from, last).value + n, last, i - 1);
    }
  }

  /** Between consecutive peaks the signal stops falling, `n` bins or more after the first. */
  lemma {:induction false} PeaksAreSeparated(data: seq<real>, threshold: real, n: int, from: int, awaiting: bool,
                                             last: int, i: nat)
    requires 0 <= from && last + 1 < |data| && n > 0
    requires i + 1 < |Scan(data, threshold, n, from, awaiting, last)|
    ensures var s := Scan(data, threshold, n, from, awaiting, last);
            0 <= s[i] && s[i] + n < s[i + 1] <= last && exists r :: s[i] + n <= r < s[i + 1] && data[r] <= data[r + 1]
    decreases last - from
  {
    var p := Next(data, threshold, from, awaiting, from, last).value;
    if i == 0 {
      FirstCandidateIsSound(data, threshold, p + n, true, last);
    } else {
      PeaksAreSeparated(data, threshold, n, p + n, true, last, i - 1);
    }
  }

  /** So the fit windows of different peaks do not overlap. */
  lemma {:induction false} FitWindowsDisjoint(data: seq<real>, threshold: real, n: int, from: int, awaiting: bool,
                                              last: int,
                                              i: nat, j: nat, b: int, c: int)
    requires 0 <= from && last + 1 < |data| && n > 0
    requires i < j < |Scan(data, threshold, n, from, awaiting, last)|
    requires var s, o := Scan(data, threshold, n, from, awaiting, last), (n - 1) / 2;
             s[i] - o <= b < s[i] - o + n && s[j] - o <= c < s[j] - o + n
    ensures b < c
  {
    PeaksAscend(data, threshold, n, from, awaiting, last, i, j);
  }

  lemma {:induction false} PeaksAscend(data: seq<real>, threshold: real, n: int, from: int, awaiting: bool,
                                       last: int, i: nat, j: nat)
    requires 0 <= from && last + 1 < |data| && n > 0
    requires i < j < |Scan(data, threshold, n, from, awaiting, last)|
    ensures var s := Scan(data, threshold, n, from, awaiting, last); s[i] + n < s[j]
    decreases j
  {
    PeaksAreSeparated(data, threshold, n, from, awaiting, last, j - 1);
    if i < j - 1 {
      PeaksAscend(data, threshold, n, from, awaiting, last, i, j - 1);
    }
  }

  // ---------- Completeness ----------

  /** Every local maximum after the first bin is found, unless it lies within `n` bins after a peak. */
  lemma {:induction false} ScanIsComplete(data: seq<real>, threshold: real, n: int, from: int, awaiting: bool,
                                          last: int, m: int)
    requires 0 <= from && last + 1 < |data| && n > 0
    requires from < m <= last && data[m - 1] <= data[m] && data[m] > threshold && data[m + 1] < data[m]
    ensures var s := Scan(data, threshold, n, from, awaiting, last);
            m in s || exists i :: 0 <= i < |s| && s[i] < m <= s[i] + n
    decreases last - from
  {
    var s := Scan(data, threshold, n, from, awaiting, last);
    assert StopsFalling(data, from, m) by { assert data[m - 1] <= data[m - 1 + 1]; }
    assert IsCandidate(data, threshold, from, awaiting, m);
    var p := Next(data, threshold, from, awaiting, from, last).value;
    assert s[0] == p <= m;
    if p + n < m {
      ScanIsComplete(data, threshold, n, p + n, true, last, m);
      var t := Scan(data, threshold, n, p + n, true, last);
      assert s[1..] == t;
      if m in t {
        assert m in s;
      } else {
        var i :| 0 <= i < |t| && t[i] < m <= t[i] + n;
        assert s[i + 1] == t[i];
      }
    }
  }

  // ---------- Exactly which bins ----------

  /** A search passes over a bin above the threshold and its right neighbour only if it awaits a rise and
      that bin is its first one or lower than its left neighbour. */
  lemma {:induction false} SearchPassesOver(data: seq<real>, threshold: real, from: int, awaiting: bool, last: int,
                                            m: int)
    requires 0 <= from <= m <= last && last + 1 < |data| && data[m] > threshold && data[m + 1] < data[m]
    requires var q := Next(data, threshold, from, awaiting, from, last); q.Some? ==> m < q.value
    ensures awaiting && (m > from ==> data[m - 1] > data[m])
  {
    hide Next;
    assert !IsCandidate(data, threshold, from, awaiting, m);
    if m > from {
      RiseStopsFall(data, from, m);
    }
  }

  lemma RiseStopsFall(data: seq<real>, from: int, m: int)
    requires 0 <= from < m < |data|
    ensures data[m - 1] <= data[m] ==> StopsFalling(data, from, m)
  {
    if data[m - 1] <= data[m] {
      assert data[m - 1] <= data[m - 1 + 1];
    }
  }

  /** The first peak is the first bin that is above the threshold and its right neighbour: none is passed over. */
  lemma {:induction false} FirstPeakIsFirst(data: seq<real>, threshold: real, n: int, from: int, last: int, m: int)
    requires 0 <= from && last + 1 < |data| && n > 0
    requires from <= m <= last && data[m] > threshold && data[m + 1] < data[m]
    ensures var s := Scan(data, threshold, n, from, false, last); |s| > 0 && s[0] <= m
  {
    hide Next, Scan;
    ScanUnfolds(data, threshold, n, from, false, last);
    var q := Next(data, threshold, from, false, from, last);
    if q.Some? ==> m < q.value {
      SearchPassesOver(data, threshold, from, false, last, m);
    }
  }

  /** After a peak the scan goes on as a search that awaits a rise. */
  lemma {:induction false} TailIsScan(data: seq<real>, threshold: real, n: int, from: int, awaiting: bool, last: int,
                                      i: nat)
    requires 0 <= from && last + 1 < |data| && n > 0 && i < |Scan(data, threshold, n, from, awaiting, last)|
    ensures var s := Scan(data, threshold, n, from, awaiting, last);
            0 <= s[i] && s[i + 1..] == Scan(data, threshold, n, s[i] + n, true, last)
    decreases i
  {
    hide Next, Scan;
    ScanUnfolds(data, threshold, n, from, awaiting, last);
    if i > 0 {
      var p := Next(data, threshold, from, awaiting, from, last).value;
      var s, rest := Scan(data, threshold, n, from, awaiting, last), Scan(data, threshold, n, p + n, true, last);
      TailIsScan(data, threshold, n, p + n, true, last, i - 1);
      assert s[i + 1..] == rest[i..];
    }
  }

  /** Each further peak is the first bin more than `n` after the one before that is above the threshold and
      its right neighbour and no lower than its left one: none is passed over, and none is left in the end. */
  lemma {:induction false} NextPeakIsFirst(data: seq<real>, threshold: real, n: int, from: int, awaiting: bool,
                                           last: int,
                                           i: nat, m: int)
    requires 0 <= from && last + 1 < |data| && n > 0 && i < |Scan(data, threshold, n, from, awaiting, last)|
    requires var s := Scan(data, threshold, n, from, awaiting, last); 0 <= s[i] && s[i] + n < m <= last
    requires data[m - 1] <= data[m] && data[m] > threshold && data[m + 1] < data[m]
    ensures var s := Scan(data, threshold, n, from, awaiting, last); i + 1 < |s| && s[i + 1] <= m
  {
    hide Next, Scan;
    var s := Scan(data, threshold, n, from, awaiting, last);
    TailIsScan(data, threshold, n, from, awaiting, last, i);
    ScanUnfolds(data, threshold, n, s[i] + n, true, last);
    var q := Next(data, threshold, s[i] + n, true, s[i] + n, last);
    if q.Some? ==> m < q.value {
      SearchPassesOver(data, threshold, s[i] + n, true, last, m);
    }
    assert s[i + 1] == s[i + 1..][0];
  }

  // ---------- A signal that never falls, and the Python scan ----------

  ghost predicate NeverFalls(data: seq<real>) {
    forall i :: 0 <= i < |data| - 1 ==> data[i] <= data[i + 1]
  }

  lemma {:induction false} NoPeakWithoutFall(data: seq<real>, threshold: real, n: int, from: int, awaiting: bool,
                                             last: int)
    requires 0 <= from && last + 1 < |data| && n > 0 && NeverFalls(data)
    ensures Scan(data, threshold, n, from, awaiting, last) == []
  {}

  lemma {:induction false} NextOneFurther(data: seq<real>, threshold: real, from: int, awaiting: bool, m: int,
                                          last: int)
    requires 0 <= from <= m && last + 1 < |data|
    ensures var short, long := Next(data, threshold, from, awaiting, m, last - 1), Next(data, threshold, from, awaiting, m, last);
            long == short || (short == None && long == Some(last))
    decreases last - m
  {
    if m < last {
      NextOneFurther(data, threshold, from, awaiting, m + 1, last);
    }
  }

  /** The signal has stopped falling in `[lo, m]` if it has in `[lo, m)` or at `m`. */
  lemma OneMoreBin(data: seq<real>, lo: int, m: int)
    requires 0 <= lo <= m && m + 1 < |data|
    ensures StopsFalling(data, lo, m + 1) <==> StopsFalling(data, lo, m) || data[m] <= data[m + 1]
  {
    if StopsFalling(data, lo, m) {
      var r :| lo <= r < m && data[r] <= data[r + 1];
      assert lo <= r < m + 1;
    }
  }

  /** The Python search, which stops one bin before the C++ one; the flag goes in and out. */
  method PythonFindPeakBin(data: seq<real>, startBin: nat, endBin: nat, n: nat, threshold: real, awaitingRise: bool)
    returns (bin: nat, awaiting: bool)
    requires endBin == |data| && n >= 1
    ensures bin <= endBin && (bin < endBin ==> awaiting)
    ensures bin < endBin ==>
              && startBin <= bin < endBin - n && data[bin] > threshold && data[bin + 1] < data[bin]
              && (awaitingRise ==> bin > startBin && data[bin - 1] <= data[bin])
    ensures Next(data, threshold, startBin, awaitingRise, startBin, endBin - n - 1) == if bin < endBin then Some(bin) else None
  {
    hide Next;
    awaiting := awaitingRise;
    if startBin > endBin - n {
      return endBin, awaiting;
    }
    for peakBin := startBin to endBin - n
      invariant awaiting == (awaitingRise && !StopsFalling(data, startBin, peakBin))
      invariant NoCandidate(data, threshold, startBin, awaitingRise, peakBin)
    {
      OneMoreBin(data, startBin, peakBin);
      if awaiting && data[peakBin] > data[peakBin + 1] {
        continue;
      } else if awaiting {
        awaiting := false;
      }
      if data[peakBin] > threshold && data[peakBin + 1] < data[peakBin] {
        awaiting := true;
        NextIsFirst(data, threshold, startBin, awaitingRise, endBin - n - 1, peakBin);
        FirstCandidateIsSound(data, threshold, startBin, awaitingRise, endBin - n - 1);
        return peakBin, awaiting;
      }
    }
    return endBin, awaiting;
  }

  lemma {:induction false} AtMostOneFurther(data: seq<real>, threshold: real, n: int, from: int, awaiting: bool,
                                            last: int)
    requires 0 <= from && last + 1 < |data| && n > 0
    ensures var short, long := Scan(data, threshold, n, from, awaiting, last - 1),
                               Scan(data, threshold, n, from, awaiting, last);
            long == short || long == short + [last]
    decreases last - from
  {
    hide Next, Scan;
    NextOneFurther(data, threshold, from, awaiting, from, last);
    ScanUnfolds(data, threshold, n, from, awaiting, last - 1);
    ScanUnfolds(data, threshold, n, from, awaiting, last);
    match Next(data, threshold, from, awaiting, from, last - 1)
    case None =>
      if last >= 0 {
        NothingPast(data, threshold, n, last);
      }
    case Some(p) =>
      AtMostOneFurther(data, threshold, n, p + n, true, last);
      Associate([p], Scan(data, threshold, n, p + n, true, last - 1), [last]);
  }

  lemma NothingPast(data: seq<real>, threshold: real, n: int, last: int)
    requires 0 <= last && last + 1 < |data| && n > 0
    ensures Scan(data, threshold, n, last + n, true, last) == []
  {}

  /** Looking one bin less far, as the Python scan does, loses a peak in that very bin, if there is
      one, and nothing else. */
  lemma {:induction false} ScanOneFurther(data: seq<real>, threshold: real, n: int, from: int, awaiting: bool,
                                          last: int)
    requires 0 <= from && last + 1 < |data| && n > 0
    ensures var short, long := Scan(data, threshold, n, from, awaiting, last - 1),
                               Scan(data, threshold, n, from, awaiting, last);
            long == if last in long then short + [last] else short
  {
    hide Scan;
    AtMostOneFurther(data, threshold, n, from, awaiting, last);
    var short := Scan(data, threshold, n, from, awaiting, last - 1);
    forall i | 0 <= i < |short| ensures short[i] < last {
      ScanIsSound(data, threshold, n, from, awaiting, last - 1, i);
    }
    assert (short + [last])[|short|] == last;
  }
}
