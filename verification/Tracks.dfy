/** Lines of a row-major buffer, and buffers filled line by line. */
module Tracks {
  import opened Grid

  /** A line of a buffer `width` cells wide: row `at`, or column `at`. */
  datatype Track = Row(at: nat, width: nat) | Column(at: nat, width: nat)

  function Cell(track: Track, i: nat): int {
    if track.Row? then Px(track.at, i, track.width) else Px(i, track.at, track.width)
  }

  /** The track's first `n` samples are distinct cells of a buffer of `size` cells. */
  ghost predicate Addresses(track: Track, n: nat, size: nat) {
    && (forall i :: 0 <= i < n ==> 0 <= Cell(track, i) < size)
    && (forall i, j :: 0 <= i < j < n ==> Cell(track, i) != Cell(track, j))
  }

  function Line<T>(cells: seq<T>, track: Track, n: nat): (line: seq<T>)
    requires forall i :: 0 <= i < n ==> 0 <= Cell(track, i) < |cells|
    ensures |line| == n
  {
    seq(n, i requires 0 <= i < n => cells[Cell(track, i)])
  }

  /** The first `n` values of `out`, stored in the cells of a track. */
  function Stored<T>(dst: seq<T>, out: seq<T>, track: Track, n: nat): (r: seq<T>)
    requires n <= |out| && forall i :: 0 <= i < n ==> 0 <= Cell(track, i) < |dst|
    ensures |r| == |dst|
  {
    if n == 0 then dst else Stored(dst, out, track, n - 1)[Cell(track, n - 1) := out[n - 1]]
  }

  lemma {:induction false} StoredOn<T>(dst: seq<T>, out: seq<T>, track: Track, n: nat, i: nat)
    requires i < n <= |out| && Addresses(track, n, |dst|)
    ensures Stored(dst, out, track, n)[Cell(track, i)] == out[i]
  {
    if i < n - 1 {
      StoredOn(dst, out, track, n - 1, i);
    }
  }

  lemma {:induction false} StoredOff<T>(dst: seq<T>, out: seq<T>, track: Track, n: nat, p: nat)
    requires n <= |out| && Addresses(track, n, |dst|)
    requires p < |dst| && forall i :: 0 <= i < n ==> Cell(track, i) != p
    ensures Stored(dst, out, track, n)[p] == dst[p]
  {
    if n > 0 {
      StoredOff(dst, out, track, n - 1, p);
    }
  }

  /** All the lines of a buffer in one direction. */
  datatype Sweep = Sweep(vertical: bool, width: nat, height: nat) {
    predicate Valid() { 0 < width && 0 < height }

    function Lines(): nat { if vertical then width else height }

    function Samples(): nat { if vertical then height else width }

    function TrackOf(t: nat): Track { if vertical then Column(t, width) else Row(t, width) }
  }

  lemma TrackAddresses(sweep: Sweep, t: nat)
    requires sweep.Valid() && t < sweep.Lines()
    ensures Addresses(sweep.TrackOf(t), sweep.Samples(), sweep.width * sweep.height)
  {
    forall i | 0 <= i < sweep.Samples() ensures 0 <= Cell(sweep.TrackOf(t), i) < sweep.width * sweep.height {
      if sweep.vertical {
        PxInRange(i, t, sweep.width, sweep.height);
      } else {
        PxInRange(t, i, sweep.width, sweep.height);
      }
    }
    forall i, j | 0 <= i < j < sweep.Samples() ensures Cell(sweep.TrackOf(t), i) != Cell(sweep.TrackOf(t), j) {
      TracksAreDisjoint(sweep, t, t, i, j);
    }
  }

  lemma TracksAreDisjoint(sweep: Sweep, t: nat, u: nat, i: nat, j: nat)
    requires sweep.Valid() && t < sweep.Lines() && u < sweep.Lines() && i < sweep.Samples() && j < sweep.Samples()
    ensures Cell(sweep.TrackOf(t), i) == Cell(sweep.TrackOf(u), j) ==> t == u && i == j
  {
    if sweep.vertical {
      PxInjective(i, t, j, u, sweep.width);
    } else {
      PxInjective(t, i, u, j, sweep.width);
    }
  }

  lemma TracksCover(sweep: Sweep, p: nat) returns (t: nat, i: nat)
    requires sweep.Valid() && p < sweep.width * sweep.height
    ensures t < sweep.Lines() && i < sweep.Samples() && Cell(sweep.TrackOf(t), i) == p
  {
    PxCovers(p, sweep.width, sweep.height);
    if sweep.vertical {
      t, i := p % sweep.width, p / sweep.width;
    } else {
      t, i := p / sweep.width, p % sweep.width;
    }
  }

  predicate FitLines<T>(outs: seq<seq<T>>, sweep: Sweep) {
    |outs| == sweep.Lines() && forall t :: 0 <= t < |outs| ==> |outs[t]| == sweep.Samples()
  }

  /** The destination once the first `m` lines have been stored. */
  ghost function Filled<T>(dst: seq<T>, outs: seq<seq<T>>, sweep: Sweep, m: nat): (r: seq<T>)
    requires sweep.Valid() && m <= sweep.Lines() && FitLines(outs, sweep) && |dst| == sweep.width * sweep.height
    ensures |r| == |dst|
  {
    if m == 0 then dst
    else
      TrackAddresses(sweep, m - 1);
      Stored(Filled(dst, outs, sweep, m - 1), outs[m - 1], sweep.TrackOf(m - 1), sweep.Samples())
  }

  lemma KeptByLaterLine<T>(before: seq<T>, out: seq<T>, sweep: Sweep, u: nat, t: nat, i: nat)
    requires sweep.Valid() && t < sweep.Lines() && u < sweep.Lines() && t != u && i < sweep.Samples()
    requires |before| == sweep.width * sweep.height && |out| == sweep.Samples()
    requires 0 <= Cell(sweep.TrackOf(t), i) < |before| && Addresses(sweep.TrackOf(u), sweep.Samples(), |before|)
    ensures Stored(before, out, sweep.TrackOf(u), sweep.Samples())[Cell(sweep.TrackOf(t), i)] ==
            before[Cell(sweep.TrackOf(t), i)]
  {
    var p, track := Cell(sweep.TrackOf(t), i), sweep.TrackOf(u);
    forall j | 0 <= j < sweep.Samples() ensures Cell(track, j) != p {
      TracksAreDisjoint(sweep, u, t, j, i);
    }
    StoredOff(before, out, track, sweep.Samples(), p);
  }

  /** A sweep fills every cell, each from its own line. */
  lemma {:induction false} FilledAt<T>(dst: seq<T>, outs: seq<seq<T>>, sweep: Sweep, m: nat, t: nat, i: nat)
    requires sweep.Valid() && t < m <= sweep.Lines() && i < sweep.Samples()
    requires FitLines(outs, sweep) && |dst| == sweep.width * sweep.height
    ensures 0 <= Cell(sweep.TrackOf(t), i) < |dst|
    ensures Filled(dst, outs, sweep, m)[Cell(sweep.TrackOf(t), i)] == outs[t][i]
  {
    TrackAddresses(sweep, t);
    TrackAddresses(sweep, m - 1);
    var before := Filled(dst, outs, sweep, m - 1);
    if t == m - 1 {
      StoredOn(before, outs[t], sweep.TrackOf(t), sweep.Samples(), i);
    } else {
      FilledAt(dst, outs, sweep, m - 1, t, i);
      KeptByLaterLine(before, outs[m - 1], sweep, m - 1, t, i);
    }
  }
}
