// The forwarders' progress lines: one whenever the running total is a whole number of megabytes.
module ProgressLog {
  import opened Chunks

  const MB: nat := 1048576

  /** The line that is logged when the total is a whole number of megabytes. */
  function LogLine(log: seq<nat>, total: nat): seq<nat>
  {
    if total % MB == 0 then log + [total / MB] else log
  }

  /** A line for each write after which the total is a whole number of megabytes. */
  function LogOf(written: seq<Bytes>): seq<nat>
  {
    if written == [] then [] else LogLine(LogOf(written[..|written| - 1]), Size(written))
  }

  lemma LogOfSnoc(written: seq<Bytes>, data: Bytes)
    ensures LogOf(written + [data]) == LogLine(LogOf(written), Size(written) + |data|)
  {
    FlatSnoc(written, data);
    assert (written + [data])[..|written|] == written;
  }

  ghost predicate Increasing(s: seq<nat>)
  {
    forall i, j :: 0 <= i < j < |s| ==> s[i] < s[j]
  }

  /** A log of positive, strictly increasing numbers that fits a total of `n` bytes. */
  ghost predicate FitsTotal(log: seq<nat>, n: nat)
  {
    && Increasing(log)
    && (forall i :: 0 <= i < |log| ==> 1 <= log[i] && log[i] * MB <= n)
    && |log| <= n / MB
  }

  lemma FitsLargerTotal(log: seq<nat>, m: nat, n: nat)
    requires FitsTotal(log, m) && m < n
    ensures FitsTotal(LogLine(log, n), n)
  {
  }

  /** Without empty chunks logged numbers are positive and strictly increasing, at most total / 2^20 of them. */
  lemma {:induction false} LogIncreases(written: seq<Bytes>)
    requires forall i :: 0 <= i < |written| ==> 1 <= |written[i]|
    ensures FitsTotal(LogOf(written), Size(written))
  {
    if written == [] {
    } else {
      var init := written[..|written| - 1];
      LogIncreases(init);
      FitsLargerTotal(LogOf(init), Size(init), Size(written));
    }
  }

  /** A number is logged if and only if some write completed exactly that many megabytes. */
  lemma {:induction false} LogExact(written: seq<Bytes>, k: nat)
    ensures k in LogOf(written) <==> exists j :: 0 < j <= |written| && Size(written[..j]) == k * MB
  {
    if written == [] {
    } else {
      var n := |written|;
      var init := written[..n - 1];
      LogExact(init, k);
      assert written[..n] == written;
      assert forall j :: 0 <= j < n ==> init[..j] == written[..j];
      assert Size(written) % MB == 0 && Size(written) / MB == k <==> Size(written) == k * MB;
    }
  }

  lemma FullChunkArithmetic(n: nat)
    ensures (n * READ_SIZE) / MB == n / 128
    ensures (n * READ_SIZE) % MB == 0 <==> n % 128 == 0
  {
  }

  /** When every chunk is full there is one line for every whole megabyte, in order. */
  lemma {:induction false} LogCompleteForFullChunks(written: seq<Bytes>)
    requires forall i :: 0 <= i < |written| ==> |written[i]| == READ_SIZE
    ensures Size(written) == |written| * READ_SIZE
    ensures LogOf(written) == seq(Size(written) / MB, i => i + 1)
  {
    if written == [] {
    } else {
      var n := |written|;
      LogCompleteForFullChunks(written[..n - 1]);
      FullChunkArithmetic(n - 1);
      FullChunkArithmetic(n);
      assert Size(written) == n * READ_SIZE;
      assert LogOf(written[..n - 1]) == seq((n - 1) / 128, i => i + 1);
      assert LogOf(written) == seq(n / 128, i => i + 1);
    }
  }
}
