/**
 * Which streams of a program the parser reports, said on the list of elementary
 * streams and without any bytes: the scan stops at the shortest prefix holding both a
 * video and an audio stream, and reports the last stream of each kind in that prefix.
 */
module StreamChoice {
  import opened Bytes

  datatype Kind = Video | Audio | Unknown

  /** judge_av_type: the stream_type codes of Table 2-29, and 0x81 as sent by the IPQAM. */
  function JudgeAvType(streamType: byte): (k: Kind)
    ensures k == Video <==> streamType in {0x01, 0x02}
    ensures k == Audio <==> streamType in {0x03, 0x04, 0x81}
  {
    match streamType
    case 0x01 => Video
    case 0x02 => Video
    case 0x03 => Audio
    case 0x04 => Audio
    case 0x81 => Audio
    case _ => Unknown
  }

  /** An elementary stream as the parser sees it: where its entry starts, its type, its PID. */
  datatype Entry = Entry(at: nat, streamType: byte, pid: Pid)

  function KindOf(e: Entry): Kind { JudgeAvType(e.streamType) }

  predicate Has(es: seq<Entry>, k: Kind) { exists e :: e in es && KindOf(e) == k }

  predicate Complete(es: seq<Entry>) { Has(es, Video) && Has(es, Audio) }

  /** `n` entries are read: the list is exhausted or just completed, and was not complete before. */
  ghost predicate IsStop(es: seq<Entry>, n: nat) {
    && n <= |es|
    && (n == |es| || Complete(es[..n]))
    && forall j: nat :: j < n ==> !Complete(es[..j])
  }

  /** `pid` is that of the last entry of kind `k`, or -1 when there is none. */
  ghost predicate IsLast(es: seq<Entry>, k: Kind, pid: int) {
    if Has(es, k) then
      exists i: nat :: i < |es| && KindOf(es[i]) == k && pid == es[i].pid
                       && forall j: nat :: i < j < |es| ==> KindOf(es[j]) != k
    else pid == -1
  }

  function StopAt(es: seq<Entry>): (n: nat)
    ensures IsStop(es, n)
  {
    if es == [] then 0
    else
      var front := es[..|es| - 1];
      var n := StopAt(front);
      assert forall j: nat :: j <= |front| ==> es[..j] == front[..j];
      if Complete(front) then n else |es|
  }

  function LastPid(es: seq<Entry>, k: Kind): (pid: int)
    ensures IsLast(es, k, pid)
  {
    if es == [] then -1
    else
      var last := |es| - 1;
      assert forall e :: e in es ==> e in es[..last] || e == es[last];
      if KindOf(es[last]) == k then es[last].pid else LastPid(es[..last], k)
  }

  datatype Chosen = Chosen(video: int, audio: int)

  function Choose(es: seq<Entry>): Chosen {
    var read := es[..StopAt(es)];
    Chosen(LastPid(read, Video), LastPid(read, Audio))
  }

  // ----- What the early exit means -----

  lemma StopUnique(es: seq<Entry>, m: nat, n: nat)
    requires IsStop(es, m) && IsStop(es, n)
    ensures m == n
  {
  }

  lemma LastUnique(es: seq<Entry>, k: Kind, p: int, q: int)
    requires IsLast(es, k, p) && IsLast(es, k, q)
    ensures p == q
  {
    if Has(es, k) {
      var i: nat :| i < |es| && KindOf(es[i]) == k && p == es[i].pid
                    && forall j: nat :: i < j < |es| ==> KindOf(es[j]) != k;
      var i': nat :| i' < |es| && KindOf(es[i']) == k && q == es[i'].pid
                     && forall j: nat :: i' < j < |es| ==> KindOf(es[j]) != k;
      assert !(i < i') && !(i' < i);
    }
  }

  /** IsStop and IsLast leave no choice: they determine what is reported. */
  lemma ChoiceDetermined(es: seq<Entry>, n: nat, video: int, audio: int)
    requires IsStop(es, n)
    requires IsLast(es[..n], Video, video) && IsLast(es[..n], Audio, audio)
    ensures Choose(es) == Chosen(video, audio)
  {
    StopUnique(es, n, StopAt(es));
    LastUnique(es[..n], Video, video, LastPid(es[..n], Video));
    LastUnique(es[..n], Audio, audio, LastPid(es[..n], Audio));
  }

  lemma FoundIff(seen: seq<Entry>, k: Kind)
    ensures 0 <= LastPid(seen, k) <==> Has(seen, k)
  {
    assert IsLast(seen, k, LastPid(seen, k));
  }

  /** A kind is reported absent exactly when the whole list lacks it. */
  lemma AbsentIff(es: seq<Entry>)
    ensures Choose(es).video == -1 <==> !Has(es, Video)
    ensures Choose(es).audio == -1 <==> !Has(es, Audio)
  {
    var n := StopAt(es);
    if n == |es| {
      assert es[..n] == es;
    } else {
      assert forall e :: e in es[..n] ==> e in es;
    }
  }

  lemma CompletedByLast(read: seq<Entry>)
    requires Complete(read) && !Complete(read[..|read| - 1])
    ensures var last := read[|read| - 1];
            && KindOf(last) != Unknown
            && !Has(read[..|read| - 1], KindOf(last))
            && LastPid(read, KindOf(last)) == last.pid
  {
    assert forall e :: e in read <==> e in read[..|read| - 1] || e == read[|read| - 1];
  }

  /** The entry that completes the pair is the first of its kind, and it is reported. */
  lemma CompletingEntryIsFirst(es: seq<Entry>)
    requires Complete(es)
    ensures var n := StopAt(es);
            && 0 < n && Complete(es[..n])
            && KindOf(es[n - 1]) != Unknown
            && !Has(es[..n - 1], KindOf(es[n - 1]))
            && es[n - 1].pid == (if KindOf(es[n - 1]).Video? then Choose(es).video else Choose(es).audio)
  {
    var n := StopAt(es);
    assert n == |es| ==> es[..n] == es;
    assert Complete(es[..n]);
    assert es[..n][..n - 1] == es[..n - 1];
    CompletedByLast(es[..n]);
  }

  // ----- When the first stream of a kind is the one reported -----

  function Reported(es: seq<Entry>, k: Kind): int
    requires k != Unknown
  {
    if k.Video? then Choose(es).video else Choose(es).audio
  }

  function Other(k: Kind): Kind { if k.Video? then Audio else Video }

  /** `pid` is that of the first entry of kind `k`, or -1 when there is none. */
  ghost predicate IsFirst(es: seq<Entry>, k: Kind, pid: int) {
    if Has(es, k) then exists i: nat :: i < |es| && KindOf(es[i]) == k && pid == es[i].pid && !Has(es[..i], k)
    else pid == -1
  }

  function FirstPid(es: seq<Entry>, k: Kind): (pid: int)
    ensures IsFirst(es, k, pid)
  {
    if es == [] then -1
    else
      var last := |es| - 1;
      assert forall e :: e in es ==> e in es[..last] || e == es[last];
      assert forall i: nat :: i <= last ==> es[..i] == es[..last][..i];
      if Has(es[..last], k) then FirstPid(es[..last], k)
      else if KindOf(es[last]) == k then es[last].pid
      else -1
  }

  /** Entry `j` is of kind `k`, is not the first, and no entry of the other kind stands before it. */
  predicate Overwrites(es: seq<Entry>, k: Kind, j: nat) {
    j < |es| && KindOf(es[j]) == k && Has(es[..j], k) && !Has(es[..j], Other(k))
  }

  ghost predicate LastOverwrite(es: seq<Entry>, k: Kind, j: nat) {
    Overwrites(es, k, j) && forall l: nat :: j < l ==> !Overwrites(es, k, l)
  }

  lemma HasInPrefix(es: seq<Entry>, k: Kind, i: nat, j: nat)
    requires i <= j <= |es| && Has(es[..i], k)
    ensures Has(es[..j], k)
  {
    assert es[..i] == es[..j][..i];
  }

  /** The entries that overwrite are exactly those of the kind that are read after its first. */
  lemma OverwritesIff(es: seq<Entry>, k: Kind, j: nat)
    requires k != Unknown && j < |es| && KindOf(es[j]) == k && Has(es[..j], k)
    ensures Overwrites(es, k, j) <==> j < StopAt(es)
  {
    var n := StopAt(es);
    if j < n {
      assert !Complete(es[..j]);
    } else {
      assert Complete(es[..n]);
      HasInPrefix(es, Other(k), n, j);
    }
  }

  lemma LaterReadOverwrites(es: seq<Entry>, k: Kind, i: nat, l: nat)
    requires k != Unknown && i < l < StopAt(es) && KindOf(es[i]) == k && KindOf(es[l]) == k
    ensures Overwrites(es, k, l)
  {
    assert es[..l][i] == es[i];
    OverwritesIff(es, k, l);
  }

  /** A prefix with an entry of the kind reaches past one without. */
  lemma FirstBefore(es: seq<Entry>, k: Kind, i: nat, n: nat)
    requires i <= |es| && n <= |es| && !Has(es[..i], k) && Has(es[..n], k)
    ensures i < n
  {
    var x :| 0 <= x < n && KindOf(es[..n][x]) == k;
  }

  lemma LastAt(read: seq<Entry>, k: Kind, i: nat)
    requires i < |read| && KindOf(read[i]) == k && forall l: nat :: i < l < |read| ==> KindOf(read[l]) != k
    ensures LastPid(read, k) == read[i].pid
  {
    assert read[i] in read;
    assert IsLast(read, k, read[i].pid);
    LastUnique(read, k, LastPid(read, k), read[i].pid);
  }

  lemma OverwriteReported(es: seq<Entry>, k: Kind, j: nat)
    requires k != Unknown && LastOverwrite(es, k, j)
    ensures Reported(es, k) == es[j].pid
  {
    var n := StopAt(es);
    OverwritesIff(es, k, j);
    forall l: nat | j < l < n ensures KindOf(es[l]) != k {
      if KindOf(es[l]) == k {
        LaterReadOverwrites(es, k, j, l);
      }
    }
    LastAt(es[..n], k, j);
  }

  lemma FirstReportedUnlessOverwritten(es: seq<Entry>, k: Kind)
    requires k != Unknown && forall j: nat :: !Overwrites(es, k, j)
    ensures Reported(es, k) == FirstPid(es, k)
  {
    AbsentIff(es);
    FoundIff(es[..StopAt(es)], k);
    assert IsFirst(es, k, FirstPid(es, k));
    if Has(es, k) {
      var n := StopAt(es);
      var i: nat :| i < |es| && KindOf(es[i]) == k && FirstPid(es, k) == es[i].pid && !Has(es[..i], k);
      FirstBefore(es, k, i, n);
      forall l: nat | i < l < n ensures KindOf(es[l]) != k {
        if KindOf(es[l]) == k {
          LaterReadOverwrites(es, k, i, l);
        }
      }
      LastAt(es[..n], k, i);
    }
  }

  lemma {:induction false} LastOverwriteExists(es: seq<Entry>, k: Kind, j: nat) returns (last: nat)
    requires Overwrites(es, k, j)
    ensures j <= last && LastOverwrite(es, k, last)
    decreases |es| - j
  {
    if l: nat :| j < l && Overwrites(es, k, l) {
      last := LastOverwriteExists(es, k, l);
    } else {
      last := j;
    }
  }

  lemma LastOverwriteUnique(es: seq<Entry>, k: Kind, i: nat, j: nat)
    requires LastOverwrite(es, k, i) && LastOverwrite(es, k, j)
    ensures i == j
  {
  }

  /**
   * Of any list: the first stream of a kind is reported exactly when the last entry that
   * overwrites it, if there is one, carries its PID again.
   */
  lemma FirstReportedIff(es: seq<Entry>, k: Kind)
    requires k != Unknown
    ensures Reported(es, k) == FirstPid(es, k)
       <==> forall j: nat :: LastOverwrite(es, k, j) ==> es[j].pid == FirstPid(es, k)
  {
    if j: nat :| Overwrites(es, k, j) {
      var last := LastOverwriteExists(es, k, j);
      OverwriteReported(es, k, last);
      forall l: nat | LastOverwrite(es, k, l) ensures l == last {
        LastOverwriteUnique(es, k, l, last);
      }
    } else {
      FirstReportedUnlessOverwritten(es, k);
    }
  }

  /** No two entries of kind `k` share a PID. */
  predicate DistinctPids(es: seq<Entry>, k: Kind) {
    forall i: nat, j: nat :: i < j < |es| && KindOf(es[i]) == k && KindOf(es[j]) == k ==> es[i].pid != es[j].pid
  }

  /** An entry of the other kind stands before every entry of kind `k` but the first. */
  predicate OtherKindBetween(es: seq<Entry>, k: Kind) {
    forall i: nat, j: nat :: i < j < |es| && KindOf(es[i]) == k && KindOf(es[j]) == k ==> Has(es[..j], Other(k))
  }

  lemma OverwriteFollowsFirst(es: seq<Entry>, k: Kind, j: nat)
    requires Overwrites(es, k, j)
    ensures !OtherKindBetween(es, k)
  {
    var i :| 0 <= i < j && KindOf(es[..j][i]) == k;
    assert KindOf(es[i]) == k;
  }

  lemma NoOverwriteSeparates(es: seq<Entry>, k: Kind)
    requires forall j: nat :: !Overwrites(es, k, j)
    ensures OtherKindBetween(es, k)
  {
    forall i: nat, j: nat | i < j < |es| && KindOf(es[i]) == k && KindOf(es[j]) == k
      ensures Has(es[..j], Other(k))
    {
      assert es[..j][i] == es[i];
      assert !Overwrites(es, k, j);
    }
  }

  lemma LaterIsNotFirst(es: seq<Entry>, k: Kind, j: nat)
    requires DistinctPids(es, k) && j < |es| && KindOf(es[j]) == k && Has(es[..j], k)
    ensures es[j].pid != FirstPid(es, k)
  {
    assert es[j] in es;
    assert IsFirst(es, k, FirstPid(es, k));
    var i: nat :| i < |es| && KindOf(es[i]) == k && FirstPid(es, k) == es[i].pid && !Has(es[..i], k);
    FirstBefore(es, k, i, j);
  }

  /**
   * With distinct PIDs the first stream of a kind is reported exactly when no second one
   * precedes the first stream of the other kind.
   */
  lemma FirstOfDistinctReportedIff(es: seq<Entry>, k: Kind)
    requires k != Unknown && DistinctPids(es, k)
    ensures Reported(es, k) == FirstPid(es, k) <==> OtherKindBetween(es, k)
  {
    if j: nat :| Overwrites(es, k, j) {
      OverwriteFollowsFirst(es, k, j);
      var last := LastOverwriteExists(es, k, j);
      OverwriteReported(es, k, last);
      LaterIsNotFirst(es, k, last);
    } else {
      FirstReportedUnlessOverwritten(es, k);
      NoOverwriteSeparates(es, k);
    }
  }

  lemma FirstUnique(es: seq<Entry>, k: Kind, p: int, q: int)
    requires IsFirst(es, k, p) && IsFirst(es, k, q)
    ensures p == q
  {
    if Has(es, k) {
      var i: nat :| i < |es| && KindOf(es[i]) == k && p == es[i].pid && !Has(es[..i], k);
      var i': nat :| i' < |es| && KindOf(es[i']) == k && q == es[i'].pid && !Has(es[..i'], k);
    }
  }

  /** Two video streams before the first audio stream: the second is reported, not the first. */
  lemma SecondVideoReported(u: Pid, v: Pid, a: Pid)
    ensures var es := [Entry(12, 0x01, u), Entry(17, 0x01, v), Entry(22, 0x03, a)];
            Choose(es) == Chosen(v, a) && FirstPid(es, Video) == u
  {
    var es := [Entry(12, 0x01, u), Entry(17, 0x01, v), Entry(22, 0x03, a)];
    assert es[..0] == [] && es[..1] == [es[0]] && es[..2] == [es[0], es[1]] && es[..3] == es;
    assert es[0] in es && es[1] in es && es[2] in es;
    assert IsStop(es, 3);
    LastAt(es, Video, 1);
    LastAt(es, Audio, 2);
    ChoiceDetermined(es, 3, v, a);
    assert IsFirst(es, Video, u) by { assert !Has(es[..0], Video); }
    FirstUnique(es, Video, u, FirstPid(es, Video));
  }

  // ----- The choice, made one entry at a time -----

  /** The scan, taken up again with PIDs already found and entries still to come. */
  function Resume(video: int, audio: int, rest: seq<Entry>): Chosen
    decreases |rest|
  {
    if rest == [] || (0 <= audio && 0 <= video) then Chosen(video, audio)
    else
      var k := KindOf(rest[0]);
      Resume(if k.Video? then rest[0].pid else video, if k.Audio? then rest[0].pid else audio, rest[1..])
  }

  /** Reading the next entry moves no stop that was not reached, and updates its own kind. */
  lemma ReadOneMore(es: seq<Entry>, n: nat)
    requires n < |es| && StopAt(es[..n]) == n && !Complete(es[..n])
    ensures StopAt(es[..n + 1]) == n + 1
    ensures LastPid(es[..n + 1], Video) == if KindOf(es[n]).Video? then es[n].pid else LastPid(es[..n], Video)
    ensures LastPid(es[..n + 1], Audio) == if KindOf(es[n]).Audio? then es[n].pid else LastPid(es[..n], Audio)
  {
    assert es[..n + 1][..n] == es[..n];
  }

  lemma StopReached(es: seq<Entry>, n: nat)
    requires n <= |es| && StopAt(es[..n]) == n && (n == |es| || Complete(es[..n]))
    ensures StopAt(es) == n
  {
    assert IsStop(es[..n], n);
    assert forall j: nat :: j < n ==> es[..j] == es[..n][..j];
    StopUnique(es, n, StopAt(es));
  }

  lemma {:induction false} ResumeChooses(es: seq<Entry>, n: nat)
    requires n <= |es| && StopAt(es[..n]) == n
    ensures Resume(LastPid(es[..n], Video), LastPid(es[..n], Audio), es[n..]) == Choose(es)
    decreases |es| - n
  {
    FoundIff(es[..n], Video);
    FoundIff(es[..n], Audio);
    if n == |es| || Complete(es[..n]) {
      StopReached(es, n);
    } else {
      ReadOneMore(es, n);
      ResumeChooses(es, n + 1);
      assert es[n..][1..] == es[n + 1..];
    }
  }
}
