/** The stream reassembler: the `while` loop of `read_and_publish_data` that
    cuts the notification buffer into candidate frames, as a function of the
    buffer. The class in module Client runs it step by step. */
module Reassembly {
  import opened Bytes
  import opened Frame

  /** `bytearray.find`: the index of the first `x` in `s`, or -1. */
  function IndexOf(s: seq<byte>, x: byte): (i: int)
    ensures -1 <= i < |s|
    ensures i == -1 <==> x !in s
    ensures 0 <= i ==> s[i] == x
  {
    if s == [] then -1
    else if s[0] == x then 0
    else
      var j := IndexOf(s[1..], x);
      if j == -1 then -1
      else
        j + 1
  }

  /** The index found is that of the first `x`. */
  lemma {:induction false} IndexOfFirst(s: seq<byte>, x: byte, i: nat)
    requires i < |s| && s[i] == x && x !in s[..i]
    ensures IndexOf(s, x) == i
  {
    if i > 0 {
      assert s[1..][..i - 1] == s[..i][1..];
      IndexOfFirst(s[1..], x, i - 1);
    }
  }

  /** `find` as a loop over the buffer. */
  method Find(s: seq<byte>, x: byte) returns (i: int)
    ensures i == IndexOf(s, x)
  {
    i := 0;
    while i < |s|
      invariant 0 <= i <= |s|
      invariant x !in s[..i]
    {
      if s[i] == x {
        IndexOfFirst(s, x, i);
        return;
      }
      assert s[..i + 1] == s[..i] + [s[i]];
      i := i + 1;
    }
    assert s[..i] == s;
    i := -1;
  }

  /** What one pass of the loop body does with a non-empty buffer. */
  datatype Step =
    /** The loop breaks, leaving `rest` as the buffer: no start sentinel at all
        (the buffer is cleared), or a header or body that is still short. */
    | Stop(rest: seq<byte>)
    /** The candidate does not end with 0xA7: its start sentinel is dropped. */
    | Resync(next: seq<byte>)
    /** `candidate` goes to `parse_response`. `front` is the buffer with the
        noise before the sentinel gone, `next` what is left once the
        candidate is removed. */
    | Hand(candidate: seq<byte>, front: seq<byte>, next: seq<byte>)

  /** A candidate frame as the loop cuts it: start sentinel first, end
      sentinel last, and as long as its length byte says. */
  predicate Framed(c: seq<byte>) {
    |c| >= 4 && c[0] == StartSentinel && c[|c| - 1] == EndSentinel && |c| == c[2] as nat + 4
  }

  /** One pass of the loop body over a non-empty buffer: noise before the
      first start sentinel is dropped, then the pass goes on from there. */
  function StepOf(buf: seq<byte>): Step
    requires |buf| > 0
  {
    var start := IndexOf(buf, StartSentinel);
    if start == -1 then Stop([]) else StepFrom(buf[start..])
  }

  /** The rest of a pass, over the buffer as it stands from its first start
      sentinel: a short header or body breaks the loop, a malformed
      candidate costs exactly its sentinel byte, and a well-framed one is cut
      off whole. */
  function StepFrom(front: seq<byte>): Step {
    if |front| < 4 then Stop(front)
    else
      var total := front[2] as nat + 4;
      if |front| < total then Stop(front)
      else if front[total - 1] != EndSentinel then Resync(front[1..])
      else Hand(front[..total], front, front[total..])
  }

  /** A pass that breaks keeps nothing when there is no start sentinel and
      everything from the first one otherwise. */
  lemma StopFacts(buf: seq<byte>)
    requires |buf| > 0 && StepOf(buf).Stop?
    ensures StartSentinel !in buf ==> StepOf(buf).rest == []
    ensures StartSentinel in buf ==> StepOf(buf).rest == buf[IndexOf(buf, StartSentinel)..]
  {
  }

  /** A resynchronising pass drops everything up to and including the first
      start sentinel. */
  lemma ResyncFacts(buf: seq<byte>)
    requires |buf| > 0 && StepOf(buf).Resync?
    ensures 0 <= IndexOf(buf, StartSentinel)
    ensures StepOf(buf).next == buf[IndexOf(buf, StartSentinel) + 1..]
  {
    var start := IndexOf(buf, StartSentinel);
    assert start != -1;
    var front := buf[start..];
    assert StepOf(buf) == StepFrom(front);
    assert |front| >= 4 && StepFrom(front).next == front[1..];
    assert front[1..] == buf[start + 1..];
  }

  /** A pass that hands a candidate over cuts a framed prefix off the buffer
      as it stands from the first start sentinel. */
  lemma HandFacts(buf: seq<byte>)
    requires |buf| > 0 && StepOf(buf).Hand?
    ensures var s := StepOf(buf);
      0 <= IndexOf(buf, StartSentinel) && s.front == buf[IndexOf(buf, StartSentinel)..] &&
      Framed(s.candidate) && |s.candidate| <= |s.front| &&
      s.candidate == s.front[..|s.candidate|] && s.next == s.front[|s.candidate|..]
  {
    var start := IndexOf(buf, StartSentinel);
    assert StepOf(buf) == StepFrom(buf[start..]);
  }

  /** Every pass that does not leave the loop makes the buffer shorter, so the
      loop ends. */
  lemma StepShrinks(buf: seq<byte>)
    requires |buf| > 0
    ensures StepOf(buf).Resync? ==> |StepOf(buf).next| < |buf|
    ensures StepOf(buf).Hand? ==> |StepOf(buf).next| < |buf|
  {
    if StepOf(buf).Resync? {
      ResyncFacts(buf);
    } else if StepOf(buf).Hand? {
      HandFacts(buf);
    }
  }

  /** The result of draining a buffer: the candidates handed to
      `parse_response` in order, the buffer left behind, and whether the
      last candidate made `parse_response` raise (which leaves the loop with
      that candidate still at the front). */
  datatype Drained = Drained(handed: seq<seq<byte>>, rest: seq<byte>, raised: bool)

  /** Whether `parse_response` raises on a candidate: its checks pass but a
      declared count reaches past the end of the frame. */
  predicate ParseRaises(candidate: seq<byte>) {
    Validate(candidate) == Pass && !Fits(candidate)
  }

  lemma ParseRaisesExactly(candidate: seq<byte>)
    ensures ParseRaises(candidate) <==> Parse(candidate) == Raised
  {
  }

  /** The loop over `buf`, where `raises` tells which candidates make
      `parse_response` raise; the source's loop is `Drain(buf, ParseRaises)`.
      Keeping the parser a parameter lets the properties below hold whatever
      it does. */
  function Drain(buf: seq<byte>, raises: seq<byte> -> bool): Drained
    decreases |buf|
  {
    if buf == [] then Drained([], [], false)
    else
      StepShrinks(buf);
      match StepOf(buf)
      case Stop(rest) => Drained([], rest, false)
      case Resync(next) => Drain(next, raises)
      case Hand(candidate, front, next) =>
        if raises(candidate) then Drained([candidate], front, true)
        else
          var d := Drain(next, raises);
          Drained([candidate] + d.handed, d.rest, d.raised)
  }

  // ---------------------------------------------------------------------------
  // The loop, pass by pass

  /** `d` with `handed` in front of its candidates. */
  function After(handed: seq<seq<byte>>, d: Drained): Drained {
    Drained(handed + d.handed, d.rest, d.raised)
  }

  /** What the first part of a loop pass found. */
  datatype Cut =
    /** The loop breaks: no start sentinel, or a frame not yet complete. */
    | Wait
    /** The candidate lacks its end sentinel; its start sentinel was dropped. */
    | Malformed
    /** A candidate to hand to `parse_response`. */
    | Candidate(message: seq<byte>)

  /** What `CutCandidate` reports for a pass. */
  function CutOf(step: Step): Cut {
    match step
    case Stop(_) => Wait
    case Resync(_) => Malformed
    case Hand(candidate, _, _) => Candidate(candidate)
  }

  /** The buffer once a pass has cut (or failed to cut) its candidate. */
  function Remainder(step: Step): seq<byte> {
    match step
    case Stop(rest) => rest
    case Resync(next) => next
    case Hand(_, front, _) => front
  }

  /** How one pass advances the drain, for each way the pass can end. */
  lemma DrainWait(handed: seq<seq<byte>>, b: seq<byte>, raises: seq<byte> -> bool)
    requires |b| > 0 && StepOf(b).Stop?
    ensures After(handed, Drain(b, raises)) == Drained(handed, Remainder(StepOf(b)), false)
  {
  }

  lemma DrainRaised(handed: seq<seq<byte>>, b: seq<byte>, raises: seq<byte> -> bool)
    requires |b| > 0 && StepOf(b).Hand? && raises(StepOf(b).candidate)
    ensures After(handed, Drain(b, raises))
         == Drained(handed + [StepOf(b).candidate], Remainder(StepOf(b)), true)
  {
  }

  lemma DrainResync(b: seq<byte>, raises: seq<byte> -> bool)
    requires |b| > 0 && StepOf(b).Resync?
    ensures |Remainder(StepOf(b))| < |b|
    ensures Drain(b, raises) == Drain(Remainder(StepOf(b)), raises)
  {
    StepShrinks(b);
  }

  lemma DrainHand(handed: seq<seq<byte>>, b: seq<byte>, raises: seq<byte> -> bool)
    requires |b| > 0 && StepOf(b).Hand? && !raises(StepOf(b).candidate)
    ensures |StepOf(b).candidate| <= |Remainder(StepOf(b))|
    ensures |Remainder(StepOf(b))[|StepOf(b).candidate|..]| < |b|
    ensures After(handed, Drain(b, raises))
         == After(handed + [StepOf(b).candidate],
                  Drain(Remainder(StepOf(b))[|StepOf(b).candidate|..], raises))
  {
    HandFacts(b);
    StepShrinks(b);
    var d := Drain(StepOf(b).next, raises);
    assert handed + ([StepOf(b).candidate] + d.handed) == (handed + [StepOf(b).candidate]) + d.handed;
  }

  /** The first part of a pass of the `while self.notification_data`
      loop: find the start sentinel, drop the noise before it, and cut a
      candidate whose length byte and end sentinel check out. `rest` is the
      buffer as the pass leaves it. */
  method CutCandidate(buf: seq<byte>) returns (cut: Cut, rest: seq<byte>)
    requires |buf| > 0
    ensures cut == CutOf(StepOf(buf))
    ensures rest == Remainder(StepOf(buf))
  {
    ghost var step := StepOf(buf);
    var start := Find(buf, StartSentinel);
    if start == -1 {
      assert step == Stop([]);
      return Wait, [];
    }
    rest := buf[start..];
    if |rest| < 4 {
      assert step == Stop(rest);
      return Wait, rest;
    }
    var total := rest[2] as nat + 4;
    if |rest| < total {
      assert step == Stop(rest);
      return Wait, rest;
    }
    var message := rest[..total];
    if message[|message| - 1] != EndSentinel {
      assert step == Resync(rest[1..]);
      return Malformed, rest[1..];
    }
    assert step == Hand(message, rest, rest[total..]);
    cut := Candidate(message);
  }

  // ---------------------------------------------------------------------------
  // Properties of the drain

  /** A buffer without a start sentinel is cleared and yields nothing. */
  lemma NoSentinelCleared(buf: seq<byte>, raises: seq<byte> -> bool)
    requires StartSentinel !in buf
    ensures Drain(buf, raises) == Drained([], [], false)
  {
  }

  /** A buffer whose first start sentinel begins a header or body that is
      still short yields nothing and keeps that partial frame, noise dropped. */
  lemma PartialFrameKept(buf: seq<byte>, raises: seq<byte> -> bool)
    requires StartSentinel in buf
    requires var front := buf[IndexOf(buf, StartSentinel)..];
      |front| < 4 || |front| < front[2] as nat + 4
    ensures Drain(buf, raises) == Drained([], buf[IndexOf(buf, StartSentinel)..], false)
  {
  }

  /** Every candidate handed to `parse_response` starts with 0x7A, ends with
      0xA7 and is as long as its length byte says. */
  lemma {:induction false} HandedAreFramed(buf: seq<byte>, raises: seq<byte> -> bool)
    ensures forall c :: c in Drain(buf, raises).handed ==> Framed(c)
    decreases |buf|
  {
    if buf != [] {
      StepShrinks(buf);
      match StepOf(buf)
      case Stop(_) =>
      case Resync(next) => HandedAreFramed(next, raises);
      case Hand(c, front, next) =>
        HandFacts(buf);
        if !raises(c) {
          HandedAreFramed(next, raises);
        }
    }
  }

  function Shifted(ps: seq<nat>, k: nat): (r: seq<nat>)
    ensures |r| == |ps| && forall i :: 0 <= i < |ps| ==> r[i] == ps[i] + k
  {
    seq(|ps|, i requires 0 <= i < |ps| => ps[i] + k)
  }

  /** Where in the buffer each handed candidate was cut from. */
  ghost function Positions(buf: seq<byte>, raises: seq<byte> -> bool): seq<nat>
    decreases |buf|
  {
    if buf == [] then []
    else
      StepShrinks(buf);
      var start := IndexOf(buf, StartSentinel);
      match StepOf(buf)
      case Stop(_) => []
      case Resync(next) => Shifted(Positions(next, raises), start + 1)
      case Hand(c, _, next) =>
        if raises(c) then [start] else [start] + Shifted(Positions(next, raises), start + |c|)
  }

  /** `cs` lie in `buf` at `ps`, one after the other, without overlapping. */
  ghost predicate SlicesAt(cs: seq<seq<byte>>, ps: seq<nat>, buf: seq<byte>) {
    |ps| == |cs| &&
    (forall i :: 0 <= i < |cs| ==> ps[i] + |cs[i]| <= |buf| && buf[ps[i]..ps[i] + |cs[i]|] == cs[i]) &&
    (forall i :: 0 <= i < |cs| - 1 ==> ps[i] + |cs[i]| <= ps[i + 1])
  }

  lemma SlicesShifted(cs: seq<seq<byte>>, ps: seq<nat>, buf: seq<byte>, k: nat)
    requires k <= |buf| && SlicesAt(cs, ps, buf[k..])
    ensures SlicesAt(cs, Shifted(ps, k), buf)
  {
    forall i | 0 <= i < |cs|
      ensures buf[ps[i] + k..ps[i] + k + |cs[i]|] == cs[i]
    {
      assert buf[ps[i] + k..ps[i] + k + |cs[i]|] == buf[k..][ps[i]..ps[i] + |cs[i]|];
    }
  }

  predicate IsSuffix(r: seq<byte>, s: seq<byte>) {
    |r| <= |s| && r == s[|s| - |r|..]
  }

  lemma SuffixTransitive(a: seq<byte>, b: seq<byte>, c: seq<byte>)
    requires IsSuffix(a, b) && IsSuffix(b, c)
    ensures IsSuffix(a, c)
  {
    assert c[|c| - |a|..] == c[|c| - |b|..][|b| - |a|..];
  }

  /** A pass that goes on leaves a suffix of the buffer. */
  lemma NextIsSuffix(buf: seq<byte>)
    requires |buf| > 0 && (StepOf(buf).Resync? || StepOf(buf).Hand?)
    ensures IsSuffix(StepOf(buf).next, buf)
  {
    var s := StepOf(buf);
    if s.Resync? {
      ResyncFacts(buf);
    } else {
      HandFacts(buf);
      var start := IndexOf(buf, StartSentinel);
      assert s.next == buf[start + |s.candidate|..];
    }
  }

  /** A pass that leaves the loop leaves a suffix of the buffer. */
  lemma LastRestIsSuffix(buf: seq<byte>, raises: seq<byte> -> bool)
    requires |buf| > 0
    requires StepOf(buf).Stop? || (StepOf(buf).Hand? && raises(StepOf(buf).candidate))
    ensures IsSuffix(Drain(buf, raises).rest, buf)
  {
    if StepOf(buf).Stop? {
      StopFacts(buf);
    } else {
      HandFacts(buf);
    }
  }

  /** A pass that goes on leaves the drain's result to the rest. */
  lemma DrainGoesOn(buf: seq<byte>, raises: seq<byte> -> bool)
    requires |buf| > 0
    requires StepOf(buf).Resync? || (StepOf(buf).Hand? && !raises(StepOf(buf).candidate))
    ensures Drain(buf, raises).rest == Drain(StepOf(buf).next, raises).rest
    ensures Drain(buf, raises).raised == Drain(StepOf(buf).next, raises).raised
  {
  }

  /** What the drain leaves behind is a suffix of the buffer. */
  lemma {:induction false} RestIsSuffix(buf: seq<byte>, raises: seq<byte> -> bool)
    ensures IsSuffix(Drain(buf, raises).rest, buf)
    decreases |buf|
  {
    if buf != [] {
      var s := StepOf(buf);
      if s.Stop? || (s.Hand? && raises(s.candidate)) {
        LastRestIsSuffix(buf, raises);
      } else {
        StepShrinks(buf);
        NextIsSuffix(buf);
        RestIsSuffix(s.next, raises);
        DrainGoesOn(buf, raises);
        SuffixTransitive(Drain(s.next, raises).rest, s.next, buf);
      }
    }
  }

  lemma SlicesCons(c: seq<byte>, p: nat, cs: seq<seq<byte>>, ps: seq<nat>, buf: seq<byte>)
    requires p + |c| <= |buf| && buf[p..p + |c|] == c
    requires SlicesAt(cs, ps, buf)
    requires |ps| > 0 ==> p + |c| <= ps[0]
    ensures SlicesAt([c] + cs, [p] + ps, buf)
  {
    var cs', ps' := [c] + cs, [p] + ps;
    forall i | 0 <= i < |cs'|
      ensures ps'[i] + |cs'[i]| <= |buf| && buf[ps'[i]..ps'[i] + |cs'[i]|] == cs'[i]
    {
      if i > 0 {
        assert cs'[i] == cs[i - 1] && ps'[i] == ps[i - 1];
      }
    }
    forall i | 0 <= i < |cs'| - 1
      ensures ps'[i] + |cs'[i]| <= ps'[i + 1]
    {
      if i > 0 {
        assert cs'[i] == cs[i - 1] && ps'[i] == ps[i - 1] && ps'[i + 1] == ps[i];
      }
    }
  }

  /** Where a pass finds the candidate it hands over. */
  lemma HandAt(buf: seq<byte>)
    requires |buf| > 0 && StepOf(buf).Hand?
    ensures var start, c := IndexOf(buf, StartSentinel), StepOf(buf).candidate;
      0 <= start && start + |c| <= |buf| && buf[start..start + |c|] == c &&
      StepOf(buf).next == buf[start + |c|..]
  {
    var start, s := IndexOf(buf, StartSentinel), StepOf(buf);
    HandFacts(buf);
    assert |s.front| == |buf| - start;
    SliceOfSlice(buf, start, |s.candidate|);
  }

  lemma SliceOfSlice(s: seq<byte>, i: nat, k: nat)
    requires i + k <= |s|
    ensures s[i..][..k] == s[i..i + k] && s[i..][k..] == s[i + k..]
  {
  }

  lemma InOrderResync(buf: seq<byte>, raises: seq<byte> -> bool)
    requires |buf| > 0 && StepOf(buf).Resync?
    requires var next := StepOf(buf).next;
      SlicesAt(Drain(next, raises).handed, Positions(next, raises), next)
    ensures SlicesAt(Drain(buf, raises).handed, Positions(buf, raises), buf)
  {
    var next := StepOf(buf).next;
    ResyncFacts(buf);
    SlicesShifted(Drain(next, raises).handed, Positions(next, raises), buf, IndexOf(buf, StartSentinel) + 1);
  }

  lemma InOrderHand(buf: seq<byte>, raises: seq<byte> -> bool)
    requires |buf| > 0 && StepOf(buf).Hand? && !raises(StepOf(buf).candidate)
    requires var next := StepOf(buf).next;
      SlicesAt(Drain(next, raises).handed, Positions(next, raises), next)
    ensures SlicesAt(Drain(buf, raises).handed, Positions(buf, raises), buf)
  {
    var start, s := IndexOf(buf, StartSentinel), StepOf(buf);
    HandAt(buf);
    var c, d := s.candidate, Drain(s.next, raises);
    var ps := Shifted(Positions(s.next, raises), start + |c|);
    SlicesShifted(d.handed, Positions(s.next, raises), buf, start + |c|);
    SlicesCons(c, start, d.handed, ps, buf);
  }

  /** The candidates are handed over in buffer order, each a slice of the
      buffer that no other overlaps. */
  lemma {:induction false} HandedInBufferOrder(buf: seq<byte>, raises: seq<byte> -> bool)
    ensures SlicesAt(Drain(buf, raises).handed, Positions(buf, raises), buf)
    decreases |buf|
  {
    if buf != [] {
      StepShrinks(buf);
      var s := StepOf(buf);
      if s.Resync? {
        HandedInBufferOrder(s.next, raises);
        InOrderResync(buf, raises);
      } else if s.Hand? {
        if raises(s.candidate) {
          HandAt(buf);
          SlicesCons(s.candidate, IndexOf(buf, StartSentinel), [], [], buf);
        } else {
          HandedInBufferOrder(s.next, raises);
          InOrderHand(buf, raises);
        }
      }
    }
  }

  /** A whole frame is handed over as exactly one candidate and consumed,
      unless `parse_response` raises on it. */
  lemma WholeFrame(f: seq<byte>, raises: seq<byte> -> bool)
    requires Framed(f)
    ensures Drain(f, raises).handed == [f]
    ensures Drain(f, raises).rest == if raises(f) then f else []
  {
    assert f[0..] == f && f[..|f|] == f && f[|f|..] == [];
  }

  /** Any proper prefix of a frame is kept whole, waiting for the rest; fed
      the rest, the buffer holds the whole frame again. */
  lemma FramePrefixWaits(f: seq<byte>, k: nat, raises: seq<byte> -> bool)
    requires Framed(f) && k < |f|
    ensures Drain(f[..k], raises) == Drained([], f[..k], false)
    ensures f[..k] + f[k..] == f
  {
    if k > 0 {
      assert f[..k][0] == StartSentinel;
      assert IndexOf(f[..k], StartSentinel) == 0;
      assert f[..k][0..] == f[..k];
    }
  }

  /** A buffer that begins with a frame hands that frame over first. */
  lemma FrameAtFront(b: seq<byte>, c: seq<byte>)
    requires Framed(c) && |c| <= |b| && b[..|c|] == c
    ensures |b| > 0 && StepOf(b) == Hand(c, b, b[|c|..])
  {
    assert b[0] == c[0] == StartSentinel;
    assert IndexOf(b, StartSentinel) == 0;
    assert b[0..] == b;
    assert b[2] == c[2] && b[|c| - 1] == c[|c| - 1];
  }

  /** Two frames in one chunk are handed over in order, unless the first
      makes `parse_response` raise. */
  lemma TwoFrames(f: seq<byte>, g: seq<byte>, raises: seq<byte> -> bool)
    requires Framed(f) && Framed(g) && !raises(f)
    ensures Drain(f + g, raises).handed == [f, g]
  {
    var buf := f + g;
    assert buf[..|f|] == f && buf[|f|..] == g;
    FrameAtFront(buf, f);
    WholeFrame(g, raises);
  }

  function Last(cs: seq<seq<byte>>): seq<byte>
    requires |cs| > 0
  {
    cs[|cs| - 1]
  }

  /** A drain that ends in a raise leaves the offending candidate at the
      front of the buffer. */
  lemma {:induction false} RaisedLeavesCandidate(buf: seq<byte>, raises: seq<byte> -> bool)
    requires Drain(buf, raises).raised
    ensures var d := Drain(buf, raises);
      |d.handed| > 0 && raises(Last(d.handed)) && Framed(Last(d.handed)) &&
      |Last(d.handed)| <= |d.rest| && d.rest[..|Last(d.handed)|] == Last(d.handed)
    decreases |buf|
  {
    StepShrinks(buf);
    var s := StepOf(buf);
    if s.Hand? {
      HandFacts(buf);
    }
    if s.Resync? {
      RaisedLeavesCandidate(s.next, raises);
    } else if s.Hand? && !raises(s.candidate) {
      RaisedLeavesCandidate(s.next, raises);
      var d := Drain(s.next, raises);
      assert Last([s.candidate] + d.handed) == Last(d.handed);
    }
  }

  /** Once `parse_response` raises on a candidate, that candidate stays at
      the front: whatever arrives later, the next drain hands over that same
      candidate first, raises again, and removes nothing. */
  lemma RaisedCandidateStays(buf: seq<byte>, more: seq<byte>, raises: seq<byte> -> bool)
    requires Drain(buf, raises).raised
    ensures var d := Drain(buf, raises);
      |d.handed| > 0 && Drain(d.rest + more, raises) == Drained([Last(d.handed)], d.rest + more, true)
  {
    RaisedLeavesCandidate(buf, raises);
    var d := Drain(buf, raises);
    var c, b := Last(d.handed), d.rest + more;
    assert b[..|c|] == d.rest[..|c|];
    FrameAtFront(b, c);
  }
}
