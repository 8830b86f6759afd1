/** Packing records into frames and numbering them (cmd/cloudlink/batch.go). */
module Frames {
  import opened Prelude
  import opened Lanes

  /** What the cloud sees; it keeps the first frame of each (stream, seqNo). */
  datatype Frame = Frame(stream: Stream, seqNo: nat, recs: seq<Record>)

  /** Whether a frame of these records stays within the size limit: any function at all. */
  type Fits = (Stream, nat, seq<Record>) -> bool

  // ---------------------------------------------------------------- the leading run of one stream

  function RunLength(recs: seq<Record>, stream: Stream): (k: nat)
    ensures k <= |recs| && forall i | 0 <= i < k :: recs[i].stream == stream
    ensures k < |recs| ==> recs[k].stream != stream
  {
    if recs == [] || recs[0].stream != stream then 0 else 1 + RunLength(recs[1..], stream)
  }

  function LeadingRun(recs: seq<Record>): (run: seq<Record>)
    ensures run <= recs && (recs != [] ==> run != [])
    ensures forall r | r in run :: r.stream == recs[0].stream
    ensures |run| < |recs| ==> recs[|run|].stream != recs[0].stream
  {
    if recs == [] then [] else recs[..RunLength(recs, recs[0].stream)]
  }

  method TakeLeadingRun(recs: seq<Record>) returns (run: seq<Record>)
    requires recs != []
    ensures run == LeadingRun(recs)
    ensures run != [] && run <= recs && forall r | r in run :: r.stream == recs[0].stream
    ensures |run| < |recs| ==> recs[|run|].stream != recs[0].stream
  {
    var stream := recs[0].stream;
    var k := 1;
    while k < |recs| && recs[k].stream == stream
      invariant 1 <= k <= |recs| && forall i | 0 <= i < k :: recs[i].stream == stream
    {
      k := k + 1;
    }
    return recs[..k];
  }

  // ---------------------------------------------------------------- the halving chain

  /** The first point of the chain n, n/2, n/4, ... whose prefix fits, or None when not even one record does. */
  function FirstFit(fits: Fits, stream: Stream, seqNo: nat, recs: seq<Record>, n: nat): (r: Option<nat>)
    requires 1 <= n <= |recs|
    ensures r.Some? ==> 1 <= r.value <= n && fits(stream, seqNo, recs[..r.value])
    ensures r.None? ==> !fits(stream, seqNo, recs[..1])
  {
    if fits(stream, seqNo, recs[..n]) then Some(n)
    else if n == 1 then None
    else FirstFit(fits, stream, seqNo, recs, n / 2)
  }

  ghost predicate InChain(n: nat, m: nat)
  {
    m == n || (n > 1 && InChain(n / 2, m))
  }

  /** Nothing larger on the chain would have fitted, and the result is on the chain. */
  lemma {:induction false} FirstFitIsLargest(fits: Fits, stream: Stream, seqNo: nat, recs: seq<Record>, n: nat, m: nat)
    requires 1 <= n <= |recs| && InChain(n, m)
    ensures m <= n
    ensures var r := FirstFit(fits, stream, seqNo, recs, n);
            && (m > (if r.Some? then r.value else 0) ==> !fits(stream, seqNo, recs[..m]))
            && (r.Some? ==> InChain(n, r.value))
  {
    if !fits(stream, seqNo, recs[..n]) && n > 1 {
      if m != n {
        FirstFitIsLargest(fits, stream, seqNo, recs, n / 2, m);
      } else {
        FirstFitIsLargest(fits, stream, seqNo, recs, n / 2, n / 2);
      }
    } else if m != n {
      ChainBelow(n / 2, m);
    }
  }

  lemma {:induction false} ChainBelow(n: nat, m: nat)
    requires InChain(n, m)
    ensures m <= n
  {
    if m != n {
      ChainBelow(n / 2, m);
    }
  }

  method BuildFrame(fits: Fits, stream: Stream, seqNo: nat, recs: seq<Record>)
    returns (frame: Option<Frame>, n: nat, dropped: bool)
    ensures recs == [] ==> frame == None && n == 0 && !dropped
    ensures recs != [] ==>
              match FirstFit(fits, stream, seqNo, recs, |recs|)
              case Some(k) => frame == Some(Frame(stream, seqNo, recs[..k])) && n == k && !dropped
              case None => frame == None && n == 1 && dropped
  {
    n := |recs|;
    while n >= 1
      invariant n <= |recs| && (recs != [] ==> n >= 1)
      invariant recs != [] ==> FirstFit(fits, stream, seqNo, recs, |recs|) == FirstFit(fits, stream, seqNo, recs, n)
      decreases n
    {
      if fits(stream, seqNo, recs[..n]) {
        return Some(Frame(stream, seqNo, recs[..n])), n, false;
      }
      if n == 1 {
        return None, 1, true;
      }
      n := n / 2;
    }
    return None, 0, false;
  }

  // ---------------------------------------------------------------- sequence numbers

  /** A stream without a file starts at 0. */
  function SeqOf(seqs: map<Stream, nat>, stream: Stream): nat {
    if stream in seqs then seqs[stream] else 0
  }

  class SeqStore {
    var cur: map<Stream, nat>
    var files: map<Stream, nat>

    /** Memory and files agree, so a restart changes nothing. */
    ghost predicate Valid()
      reads this
    {
      forall stream: Stream :: SeqOf(cur, stream) == SeqOf(files, stream)
    }

    constructor Open(onDisk: map<Stream, nat>)
      ensures Valid() && files == onDisk
    {
      cur, files := onDisk, onDisk;
    }

    method Peek(stream: Stream) returns (seqNo: nat)
      ensures seqNo == SeqOf(cur, stream)
    {
      return if stream in cur then cur[stream] else 0;
    }

    method Bump(stream: Stream, writeOk: bool) returns (ok: bool)
      requires Valid()
      modifies this
      ensures Valid() && ok == writeOk
      ensures forall t: Stream :: SeqOf(files, t) == SeqOf(old(files), t) + if writeOk && t == stream then 1 else 0
    {
      var next := SeqOf(cur, stream) + 1;
      if !writeOk {
        return false;
      }
      files, cur := files[stream := next], cur[stream := next];
      forall t: Stream ensures SeqOf(cur, t) == SeqOf(files, t) {
        assert old(SeqOf(cur, t)) == old(SeqOf(files, t));
      }
      return true;
    }
  }
}
