/**
  A whole call through both translators: what one makes of it for IPSC, fed in order to the other, as between two
  bridges running this code.
 */
module CallRelay {
  import opened Options
  import opened ByteValues
  import opened LinkControl
  import opened Dmrd
  import opened LcBurst
  import opened IpscHeader
  import opened Streams
  import F = ForwardTranslator
  import R = ReverseTranslator
  import FT = ForwardTheorems
  import RT = ReverseTheorems
  import TR = TranslatorRoundTrip

  type Data = seq<bv8>

  /** What the receiver's foreign code makes of a packet: addresses, a synthesised link control, an encoded voice burst. */
  datatype Foreign = Foreign(recovered: Option<(Id, Id)>, standardLc: Lc, voice: LcBurst.Burst)

  /** The settings of both sides; the foreign code may answer differently for each packet that arrives. */
  datatype Setting = Setting(peerId: nat, repeater: nat, colorCode: bv8, foreign: (nat, Data) -> Foreign)

  /** Both translators, what went over the wire, and what came out. */
  datatype Relay = Relay(sender: F.State, receiver: R.State, wires: seq<Data>, out: seq<Packet>)

  function FrameAt(env: Setting, n: nat, d: Data): R.Frame
    requires d != []
  {
    var x := env.foreign(n, d);
    R.Frame(d[0], d, x.recovered, x.standardLc, x.voice)
  }

  /** The receiver knows the packet's call control, or its search for a recent stream finds none. */
  ghost predicate OnItsOwn(t: R.State, f: R.Frame, now: nat) {
    R.LegalServer(t, f, None) && (CallControlIn(f.data) in t.aliases || R.LegalFind(t, f, now, None))
  }

  /** A packet arrives on its own stream; what the receiver does when it joins another stream is not followed here. */
  ghost function Receive(env: Setting, w: Relay, d: Data, now: nat): Relay {
    if d == [] || !OnItsOwn(w.receiver, FrameAt(env, |w.wires|, d), now) then w.(wires := w.wires + [d])
    else
      var f := FrameAt(env, |w.wires|, d);
      Relay(w.sender, R.Next(w.receiver, f, now, None), w.wires + [d],
            w.out + match R.Output(w.receiver, f, now, None, env.repeater, env.colorCode) case None => [] case Some(p) => [p])
  }

  ghost function ReceiveAll(env: Setting, w: Relay, ds: seq<Data>, now: nat): Relay {
    if ds == [] then w else Receive(env, ReceiveAll(env, w, ds[..|ds| - 1], now), ds[|ds| - 1], now)
  }

  /** A packet is sent, and what it turns into arrives. */
  ghost function Send(env: Setting, w: Relay, i: F.Input, now: nat): Relay {
    if !F.LegalServer(w.sender, i, None) then w
    else
      ReceiveAll(env, w.(sender := F.Next(w.sender, i, now, None)), F.Sent(F.Serving(w.sender, i, now, None), i, env.peerId), now)
  }

  ghost function SendAll(env: Setting, w: Relay, ins: seq<F.Input>, times: seq<nat>): Relay
    requires |times| == |ins|
  {
    if ins == [] then w
    else
      var n := |ins| - 1;
      Send(env, SendAll(env, w, ins[..n], times[..n]), ins[n], times[n])
  }

  // ---------- The call ----------

  /** The packet belongs to the call of packet p. */
  predicate OfCall(q: Packet, p: Packet) {
    q.streamId == p.streamId && q.src == p.src && q.dst == p.dst && q.slot == p.slot && q.groupCall == p.groupCall
  }

  /** The vocoder bytes of voice packets, without those whose burst turns out to be data. */
  function Voiced(vs: seq<F.Input>): seq<F.Ambe> {
    if vs == [] then []
    else
      var rest, v := Voiced(vs[..|vs| - 1]), vs[|vs| - 1].voice;
      if v.Some? then rest + [v.value.0] else rest
  }

  ghost predicate VoiceOf(vs: seq<F.Input>, p: Packet) {
    forall k :: 0 <= k < |vs| ==> F.VoiceFrame(vs[k].packet) && OfCall(vs[k].packet, p)
  }

  /** The receiver recovers no addresses, or those of the call. */
  ghost predicate Honest(env: Setting, p: Packet) {
    forall n: nat, d: Data ::
      var r := env.foreign(n, d).recovered; r.Some? ==> r.value == (Low24(p.src), Low24(p.dst))
  }

  /** The n-th packet that comes out: under one stream id, numbered, with the call's slot, type and addresses. */
  ghost predicate Carries(env: Setting, q: Packet, sid: nat, n: nat, p: Packet) {
    && q.streamId == sid && q.seqNo == n % 256 && q.slot == p.slot && q.groupCall == p.groupCall
    && (Honest(env, p) ==> q.src == Low24(p.src) && q.dst == Low24(p.dst))
  }

  /** The k-th voice packet: in phase, and encoded from the k-th vocoder bytes. */
  ghost predicate VoiceOut(env: Setting, q: Packet, k: nat, wire: nat, d: Data, ambe: F.Ambe) {
    RT.IsVoice(q) && RT.InPhase(q, k) && q.dmrData == env.foreign(wire, d).voice && |d| >= 52 && d[33..52] == ambe
  }

  ghost predicate LcOut(q: Packet, lc: Lc) {
    |q.dmrData| == 33 && LcIn(q.dmrData) == Recovered(lc)
  }

  /** What has come out since the call began, and the packets it came in: the header, then the voice. */
  ghost predicate Heard(env: Setting, base: nat, sid: nat, out: seq<Packet>, wires: seq<Data>, h: F.Input, voices: seq<F.Ambe>) {
    && |out| == 1 + |voices| && |wires| == 2 + |voices|
    && RT.IsHeader(out[0]) && LcOut(out[0], h.lc)
    && (forall n :: 0 <= n < |out| ==> Carries(env, out[n], sid, n, h.packet))
    && (forall n :: 1 <= n < |out| ==> VoiceOut(env, out[n], n - 1, base + 1 + n, wires[1 + n], voices[n - 1]))
  }

  // ---------- Both ends in the middle of the call ----------

  ghost predicate Sending(from: Relay, s: F.State, p: Packet) {
    var h := |from.sender.streams|;
    && F.Shape(s) && p.streamId in s.aliases && s.aliases[p.streamId] == h < |s.streams|
    && s.streams[h].callControl == Successor(from.sender.lastCall)
  }

  ghost predicate Receiving(env: Setting, from: Relay, t: R.State, p: Packet, voices: nat) {
    var cc, h := Successor(from.sender.lastCall), |from.receiver.streams|;
    && R.Shape(t) && cc in t.aliases && t.aliases[cc] == h < |t.streams|
    && var st := t.streams[h];
    && st.started && st.streamId == Successor(from.receiver.lastId) && st.seqNo == (1 + voices) % 256 && st.burstIndex == voices % 6
    && (Honest(env, p) ==> st.src == Low24(p.src) && st.dst == Low24(p.dst))
  }

  // ---------- The sender ----------

  lemma SendKnown(from: Relay, s: F.State, i: F.Input, now: nat, p: Packet)
    requires Sending(from, s, p) && i.packet.streamId == p.streamId && F.Accepted(i)
    ensures F.LegalServer(s, i, None) && F.Serving(s, i, now, None).callControl == Successor(from.sender.lastCall)
    ensures !F.KindOf(i).Terminator? ==> Sending(from, F.Next(s, i, now, None), p)
    ensures F.KindOf(i).Terminator? ==> p.streamId !in F.Next(s, i, now, None).aliases
  {
    hide F.KindOf, F.Advanced;
    FT.AdvancedKeepsCall(F.Serving(s, i, now, None), i);
  }

  lemma SendNew(from: Relay, i: F.Input, now: nat)
    requires F.Shape(from.sender) && F.Accepted(i) && i.packet.streamId !in from.sender.aliases && F.KindOf(i).VoiceHeader?
    ensures F.LegalServer(from.sender, i, None)
    ensures F.Serving(from.sender, i, now, None).callControl == Successor(from.sender.lastCall)
    ensures Sending(from, F.Next(from.sender, i, now, None), i.packet)
  {
    hide F.KindOf, F.Advanced;
    FT.AdvancedKeepsCall(F.Serving(from.sender, i, now, None), i);
  }

  // ---------- The receiver ----------

  lemma FrameArrives(env: Setting, n: nat, d: Data, sent: seq<Data>)
    requires d in sent && d != []
    ensures TR.Arrives(FrameAt(env, n, d), sent)
  {
  }

  /** A packet of the call reaches the stream of the call. */
  lemma ReceiveKnown(env: Setting, from: Relay, w: Relay, d: Data, now: nat, p: Packet, voices: nat)
    requires d != [] && Receiving(env, from, w.receiver, p, voices)
    requires TR.SameCall(FrameAt(env, |w.wires|, d), p, Successor(from.sender.lastCall))
    ensures var f, h := FrameAt(env, |w.wires|, d), |from.receiver.streams|;
      var st := w.receiver.streams[h];
      var k := R.KindOf(f, true);
      && R.Translatable(f)
      && Receive(env, w, d, now) == Relay(
           w.sender,
           R.State(if k.Terminator? then WithoutAliases(w.receiver.aliases, h) else w.receiver.aliases,
                   w.receiver.streams[h := R.Advanced(st, f, k, now)], w.receiver.lastId),
           w.wires + [d],
           w.out + if k.Nothing? then [] else [R.PacketFor(st, f, k, env.repeater, env.colorCode)])
  {
    hide R.KindOf, R.PacketFor, R.Advanced, WithoutAliases, R.LegalFind;
    CallFits(from.sender.lastCall);
  }

  lemma CallFits(last: nat)
    ensures Successor(last) % 0x1_0000_0000 == Successor(last)
  {
  }

  /** A stream just opened by the call's header. */
  lemma OpenedReceives(env: Setting, from: Relay, n: nat, d: Data, now: nat, p: Packet)
    requires d != [] && R.Shape(from.receiver) && TR.SameCall(FrameAt(env, n, d), p, Successor(from.sender.lastCall))
    ensures var f, cc, h := FrameAt(env, n, d), Successor(from.sender.lastCall), |from.receiver.streams|;
      var st := R.Advanced(R.NewStream(from.receiver, f, now), f, R.VoiceHeader, now);
      Receiving(env, from, R.State(from.receiver.aliases[cc := h], from.receiver.streams + [st], Successor(from.receiver.lastId)), p, 0)
  {
    hide Honest, R.EmbeddedFor, R.Trusted, PeerIn, SlotIn, R.GroupCallOf, Successor;
    if Honest(env, p) {
      HonestSource(env, n, d, p);
    }
  }

  /** The first packet of a call opens a stream. */
  lemma ReceiveNew(env: Setting, from: Relay, w: Relay, d: Data, now: nat, p: Packet)
    requires d != [] && w.receiver == from.receiver && R.Shape(w.receiver)
    requires TR.SameCall(FrameAt(env, |w.wires|, d), p, Successor(from.sender.lastCall))
    requires Successor(from.sender.lastCall) !in w.receiver.aliases
    requires R.KindOf(FrameAt(env, |w.wires|, d), false).VoiceHeader?
    requires R.LegalFind(w.receiver, FrameAt(env, |w.wires|, d), now, None)
    ensures var f := FrameAt(env, |w.wires|, d);
      var st := R.NewStream(w.receiver, f, now);
      var w' := Receive(env, w, d, now);
      && w'.sender == w.sender && w'.wires == w.wires + [d]
      && w'.out == w.out + [R.PacketFor(st, f, R.VoiceHeader, env.repeater, env.colorCode)]
      && Receiving(env, from, w'.receiver, p, 0)
  {
    hide R.KindOf, R.PacketFor, R.Advanced, Receiving, Honest, Successor, R.LegalFind;
    CallFits(from.sender.lastCall);
    OpenedReceives(env, from, |w.wires|, d, now, p);
    var f, h, t := FrameAt(env, |w.wires|, d), |from.receiver.streams|, from.receiver;
    var st := R.NewStream(t, f, now);
    assert !st.started && (t.streams + [st])[h] == st;
    assert (t.streams + [st])[h := R.Advanced(st, f, R.VoiceHeader, now)] == t.streams + [R.Advanced(st, f, R.VoiceHeader, now)];
  }

  /** The addresses a receiver takes from a packet of the call. */
  lemma HonestSource(env: Setting, n: nat, d: Data, p: Packet)
    requires d != [] && R.Translatable(FrameAt(env, n, d)) && Honest(env, p)
      && SrcIn(d) == Low24(p.src) && DstIn(d) == Low24(p.dst)
    ensures var f := FrameAt(env, n, d); R.SrcOf(f) == Low24(p.src) && R.DstOf(f) == Low24(p.dst)
  {
  }

  lemma ReceiveOne(env: Setting, w: Relay, d: Data, now: nat)
    ensures ReceiveAll(env, w, [d], now) == Receive(env, w, d, now)
  {
    hide Receive;
    assert [d][..0] == [];
    assert ReceiveAll(env, w, [], now) == w;
  }

  lemma ReceiveTwo(env: Setting, w: Relay, d: Data, e: Data, now: nat)
    ensures ReceiveAll(env, w, [d, e], now) == Receive(env, Receive(env, w, d, now), e, now)
  {
    hide Receive;
    assert [d, e][..1] == [d];
    ReceiveOne(env, w, d, now);
  }

  /** The second of two headers is not translated again. */
  lemma RepeatedHeader(f: R.Frame)
    requires R.Translatable(f)
    ensures R.KindOf(f, false).VoiceHeader? ==> R.KindOf(f, true).Nothing?
    ensures !R.KindOf(f, false).VoiceHeader? ==> R.KindOf(f, true) == R.KindOf(f, false)
  {
  }

  /** What a packet that comes out on the stream of the call carries. */
  lemma PacketCarries(env: Setting, from: Relay, st: R.Stream, n: nat, d: Data, k: R.Kind, p: Packet, count: nat)
    requires d != [] && TR.SameCall(FrameAt(env, n, d), p, Successor(from.sender.lastCall))
    requires st.streamId == Successor(from.receiver.lastId) && st.seqNo == count % 256
    requires Honest(env, p) ==> st.src == Low24(p.src) && st.dst == Low24(p.dst)
    ensures Carries(env, R.PacketFor(st, FrameAt(env, n, d), k, env.repeater, env.colorCode), st.streamId, count, p)
  {
    hide BuiltBurst, R.LcFor, Value, Honest, Low24, R.Trusted;
    if Honest(env, p) {
      HonestSource(env, n, d, p);
    }
  }

  // ---------- The steps of a call ----------

  /** What is sent for each kind of packet. */
  lemma HeadersSent(st: F.Stream, i: F.Input, peerId: nat) returns (d: Data, e: Data)
    requires F.KindOf(i).VoiceHeader?
    ensures F.Sent(st, i, peerId) == [d, e] && d != [] && e != []
  {
    hide HeaderBytes, RtpBytes, F.KindOf;
    d, e := F.HeaderWire(st, i, peerId, st.firstPacket), F.HeaderWire(F.RtpCounted(st), i, peerId, false);
  }

  lemma TerminatorSent(st: F.Stream, i: F.Input, peerId: nat) returns (d: Data)
    requires F.KindOf(i).Terminator?
    ensures F.Sent(st, i, peerId) == [d] && d != []
  {
    hide HeaderBytes, RtpBytes, F.KindOf;
    d := F.TerminatorWire(st, i, peerId);
  }

  lemma VoiceSent(st: F.Stream, v: F.Input, peerId: nat) returns (d: Data)
    requires F.VoiceFrame(v.packet) && v.voice.Some?
    ensures F.KindOf(v).Voice? && F.Sent(st, v, peerId) == [d] && d != []
  {
    hide HeaderBytes, RtpBytes;
    d := F.VoiceWire(st, v, peerId);
  }

  lemma NothingSent(st: F.Stream, v: F.Input, peerId: nat)
    requires F.VoiceFrame(v.packet) && v.voice.None?
    ensures F.KindOf(v).Skipped? && F.Sent(st, v, peerId) == []
  {
  }

  lemma SendIs(env: Setting, w: Relay, i: F.Input, now: nat)
    requires F.LegalServer(w.sender, i, None)
    ensures Send(env, w, i, now) ==
      ReceiveAll(env, w.(sender := F.Next(w.sender, i, now, None)), F.Sent(F.Serving(w.sender, i, now, None), i, env.peerId), now)
  {
    hide F.Next, F.Sent, F.Serving, ReceiveAll;
  }

  lemma LcPacket(f: R.Frame, st: R.Stream, k: R.Kind, env: Setting, lc: Lc)
    requires R.Translatable(f) && !k.Voice? && LcIn(R.PacketFor(st, f, k, env.repeater, env.colorCode).dmrData) == Recovered(lc)
    ensures LcOut(R.PacketFor(st, f, k, env.repeater, env.colorCode), lc)
  {
    hide BuiltBurst, LcIn, R.LcFor, R.SrcFor, R.DstFor, Value;
  }

  /** The repeated header changes nothing that comes out. */
  lemma HeaderRepeats(env: Setting, from: Relay, w: Relay, st: F.Stream, i: F.Input, now: nat, d: Data)
    requires Receiving(env, from, w.receiver, i.packet, 0) && F.KindOf(i).VoiceHeader?
    requires d != [] && d in F.Sent(st, i, env.peerId) && st.callControl == Successor(from.sender.lastCall)
    ensures var w' := Receive(env, w, d, now);
      w'.sender == w.sender && w'.wires == w.wires + [d] && w'.out == w.out && Receiving(env, from, w'.receiver, i.packet, 0)
  {
    hide F.KindOf, F.Sent, R.KindOf, R.PacketFor, R.Advanced, Receive, TR.SameCall, LcIn, TR.Arrives, FrameAt, Receiving;
    var f := FrameAt(env, |w.wires|, d);
    FrameArrives(env, |w.wires|, d, F.Sent(st, i, env.peerId));
    CallTranslatableFrame(st, i, env.peerId, f);
    var there := R.Stream(0, 0, 0, false, 0, 0, 0, false, false, 0, None);
    TR.LcRelayed(st, i, env.peerId, f, there, 0, 0);
    ReceiveKnown(env, from, w, d, now, i.packet, 0);
    RepeatedHeader(f);
    SilentStep(env, from, w.receiver, f, i.packet, now);
    assert w.out + [] == w.out;
  }

  /** The receiver's search finds no recent stream that a packet arriving next could join. */
  ghost predicate NotJoined(env: Setting, from: Relay, d: Data, now: nat)
    requires R.Shape(from.receiver)
  {
    d != [] && R.Translatable(FrameAt(env, |from.wires|, d)) ==> R.LegalFind(from.receiver, FrameAt(env, |from.wires|, d), now, None)
  }

  /** The first packet sent for a call is not joined to a recent stream. */
  ghost predicate NewCall(env: Setting, from: Relay, h: F.Input, now: nat)
    requires F.LegalServer(from.sender, h, None) && R.Shape(from.receiver)
  {
    var sent := F.Sent(F.Serving(from.sender, h, now, None), h, env.peerId);
    sent != [] ==> NotJoined(env, from, sent[0], now)
  }

  /** The header: two packets go over, one comes out. */
  lemma HeaderStep(env: Setting, from: Relay, i: F.Input, now: nat)
    requires F.Shape(from.sender) && R.Shape(from.receiver) && F.Accepted(i) && F.KindOf(i).VoiceHeader?
    requires i.packet.streamId !in from.sender.aliases && Successor(from.sender.lastCall) !in from.receiver.aliases
    requires NewCall(env, from, i, now)
    ensures var w := Send(env, from, i, now);
      && Sending(from, w.sender, i.packet) && Receiving(env, from, w.receiver, i.packet, 0)
      && exists out, wires :: w.out == from.out + out && w.wires == from.wires + wires
           && Heard(env, |from.wires|, Successor(from.receiver.lastId), out, wires, i, [])
  {
    hide Send, F.Sent, F.Next, F.Serving, F.KindOf, F.Shape, R.Shape, R.PacketFor, Receive, ReceiveAll, Sending, Receiving,
      NotJoined, Heard, FrameAt, Successor, LcOut, RT.IsHeader, Carries;
    SendNew(from, i, now);
    SendIs(env, from, i, now);
    var st := F.Serving(from.sender, i, now, None);
    var d, e := HeadersSent(st, i, env.peerId);
    var w0 := from.(sender := F.Next(from.sender, i, now, None));
    ReceiveTwo(env, w0, d, e, now);
    var there := HeaderArrives(env, from, w0, st, i, now, d);
    var w1 := Receive(env, w0, d, now);
    HeaderRepeats(env, from, w1, st, i, now, e);
    var w := Receive(env, w1, e, now);
    var q := R.PacketFor(there, FrameAt(env, |from.wires|, d), R.VoiceHeader, env.repeater, env.colorCode);
    assert w.out == from.out + [q] && w.wires == from.wires + [d, e];
    HeaderHeard(env, |from.wires|, Successor(from.receiver.lastId), q, d, e, i);
  }

  lemma HeaderHeard(env: Setting, base: nat, sid: nat, q: Packet, d: Data, e: Data, i: F.Input)
    requires RT.IsHeader(q) && LcOut(q, i.lc) && Carries(env, q, sid, 0, i.packet)
    ensures Heard(env, base, sid, [q], [d, e], i, [])
  {
    hide Carries, LcOut, RT.IsHeader;
  }

  /** The first header opens the receiver's stream and comes out. */
  lemma HeaderArrives(env: Setting, from: Relay, w: Relay, st: F.Stream, i: F.Input, now: nat, d: Data) returns (there: R.Stream)
    requires w.receiver == from.receiver && w.wires == from.wires && w.out == from.out && R.Shape(from.receiver)
    requires F.KindOf(i).VoiceHeader? && d != [] && d in F.Sent(st, i, env.peerId)
    requires st.callControl == Successor(from.sender.lastCall)
    requires Successor(from.sender.lastCall) !in from.receiver.aliases && NotJoined(env, from, d, now)
    ensures R.Translatable(FrameAt(env, |from.wires|, d))
    ensures var w' := Receive(env, w, d, now);
      var q := R.PacketFor(there, FrameAt(env, |from.wires|, d), R.VoiceHeader, env.repeater, env.colorCode);
      && w'.sender == w.sender && w'.wires == w.wires + [d] && w'.out == w.out + [q] && Receiving(env, from, w'.receiver, i.packet, 0)
      && RT.IsHeader(q) && LcOut(q, i.lc) && Carries(env, q, Successor(from.receiver.lastId), 0, i.packet)
  {
    hide F.KindOf, F.Sent, R.KindOf, R.PacketFor, Receive, TR.SameCall, LcIn, LcOut, RT.IsHeader, Carries, Receiving,
      FrameAt, Honest, R.LegalFind;
    var p, f := i.packet, FrameAt(env, |from.wires|, d);
    FrameArrives(env, |from.wires|, d, F.Sent(st, i, env.peerId));
    CallTranslatableFrame(st, i, env.peerId, f);
    there := R.NewStream(w.receiver, f, now);
    TR.LcRelayed(st, i, env.peerId, f, there, env.repeater, env.colorCode);
    ReceiveNew(env, from, w, d, now, p);
    NewCarries(env, from, d, now, p);
    LcPacket(f, there, R.VoiceHeader, env, i.lc);
    RT.KindShows(there, f, env.repeater, env.colorCode);
  }

  lemma CallTranslatableFrame(st: F.Stream, i: F.Input, peerId: nat, f: R.Frame)
    requires (F.KindOf(i).VoiceHeader? || F.KindOf(i).Terminator?) && TR.Arrives(f, F.Sent(st, i, peerId))
    ensures R.Translatable(f) && TR.SameCall(f, i.packet, st.callControl)
  {
    hide F.KindOf, F.Sent, TR.SameCall, LcIn, R.PacketFor, R.KindOf, TR.Arrives;
    var there := R.Stream(0, 0, 0, false, 0, 0, 0, false, false, 0, None);
    TR.LcRelayed(st, i, peerId, f, there, 0, 0);
    TR.CallTranslatable(f, i.packet, st.callControl);
  }

  lemma NewCarries(env: Setting, from: Relay, d: Data, now: nat, p: Packet)
    requires d != [] && TR.SameCall(FrameAt(env, |from.wires|, d), p, Successor(from.sender.lastCall))
    ensures var f := FrameAt(env, |from.wires|, d);
      var there := R.NewStream(from.receiver, f, now);
      Carries(env, R.PacketFor(there, f, R.VoiceHeader, env.repeater, env.colorCode), Successor(from.receiver.lastId), 0, p)
  {
    hide R.PacketFor, Carries, Honest;
    var f := FrameAt(env, |from.wires|, d);
    if Honest(env, p) {
      HonestSource(env, |from.wires|, d, p);
    }
    PacketCarries(env, from, R.NewStream(from.receiver, f, now), |from.wires|, d, R.VoiceHeader, p, 0);
  }

  /** A packet that is not translated leaves the call as it is. */
  lemma SilentStep(env: Setting, from: Relay, t: R.State, f: R.Frame, p: Packet, now: nat)
    requires Receiving(env, from, t, p, 0) && R.Translatable(f)
    ensures var h := |from.receiver.streams|;
      Receiving(env, from, t.(streams := t.streams[h := R.Advanced(t.streams[h], f, R.Nothing, now)]), p, 0)
  {
    hide Honest;
  }

  /** Voice comes out in phase. */
  lemma VoiceComesOut(env: Setting, from: Relay, w: Relay, st: F.Stream, v: F.Input, now: nat, d: Data, p: Packet, voices: nat)
    requires Receiving(env, from, w.receiver, p, voices) && F.KindOf(v).Voice? && OfCall(v.packet, p)
    requires F.Sent(st, v, env.peerId) == [d] && d != [] && st.callControl == Successor(from.sender.lastCall)
    ensures var w', there := Receive(env, w, d, now), w.receiver.streams[|from.receiver.streams|];
      var f := FrameAt(env, |w.wires|, d);
      R.Translatable(f) &&
      var q := R.PacketFor(there, f, R.Voice, env.repeater, env.colorCode);
      && w'.sender == w.sender && w'.wires == w.wires + [d] && w'.out == w.out + [q]
      && Receiving(env, from, w'.receiver, p, voices + 1)
      && v.voice.Some? && VoiceOut(env, q, voices, |w.wires|, d, v.voice.value.0)
      && Carries(env, q, Successor(from.receiver.lastId), 1 + voices, p)
  {
    hide F.KindOf, F.Sent, R.KindOf, R.PacketFor, R.Advanced, Receive, TR.Arrives, FrameAt, Honest, Carries, VoiceOut, Successor,
      WithoutAliases, TR.SameCall;
    var f, there := FrameAt(env, |w.wires|, d), w.receiver.streams[|from.receiver.streams|];
    FrameArrives(env, |w.wires|, d, F.Sent(st, v, env.peerId));
    FT.VoiceKind(v);
    TR.VoiceRelayed(st, v, env.peerId, f);
    SameAsCall(f, v.packet, p, st.callControl);
    ReceiveKnown(env, from, w, d, now, p, voices);
    RepeatedHeader(f);
    PacketCarries(env, from, there, |w.wires|, d, R.Voice, p, 1 + voices);
    VoiceShows(env, |w.wires|, d, there, voices, v);
    VoiceAdvances(env, from, w.receiver, f, p, voices, now);
  }

  lemma SameAsCall(f: R.Frame, q: Packet, p: Packet, cc: nat)
    requires OfCall(q, p)
    ensures TR.SameCall(f, q, cc) <==> TR.SameCall(f, p, cc)
  {
  }

  lemma VoiceShows(env: Setting, n: nat, d: Data, there: R.Stream, voices: nat, v: F.Input)
    requires d != [] && R.Translatable(FrameAt(env, n, d)) && there.burstIndex == voices % 6 && v.voice.Some?
    requires |d| >= 52 && d[33..52] == v.voice.value.0
    ensures VoiceOut(env, R.PacketFor(there, FrameAt(env, n, d), R.Voice, env.repeater, env.colorCode), voices, n, d, v.voice.value.0)
  {
  }

  lemma NextNumbers(voices: nat)
    ensures R.NextSeq((1 + voices) % 256) == (2 + voices) % 256 && R.NextBurst(voices % 6) == (voices + 1) % 6
  {
    NextSeqOf(1 + voices);
    NextBurstOf(voices);
  }

  lemma NextSeqOf(n: nat)
    ensures R.NextSeq(n % 256) == (n + 1) % 256
  {
    assert n + 1 == 256 * (n / 256) + (n % 256 + 1);
  }

  lemma NextBurstOf(n: nat)
    ensures R.NextBurst(n % 6) == (n + 1) % 6
  {
    assert n + 1 == 6 * (n / 6) + (n % 6 + 1);
  }

  lemma SameShape(t: R.State, h: nat, st: R.Stream)
    requires R.Shape(t) && h < |t.streams|
    ensures R.Shape(t.(streams := t.streams[h := st]))
  {
  }

  lemma VoiceAdvances(env: Setting, from: Relay, t: R.State, f: R.Frame, p: Packet, voices: nat, now: nat)
    requires Receiving(env, from, t, p, voices) && R.Translatable(f)
    ensures var h := |from.receiver.streams|;
      Receiving(env, from, t.(streams := t.streams[h := R.Advanced(t.streams[h], f, R.Voice, now)]), p, voices + 1)
  {
    hide Honest, R.NextSeq, R.NextBurst, Successor, R.Shape;
    NextNumbers(voices);
    SameShape(t, |from.receiver.streams|, R.Advanced(t.streams[|from.receiver.streams|], f, R.Voice, now));
  }

  /** The call so far: both ends in the middle of it, its header and its voice out. */
  ghost predicate Underway(env: Setting, from: Relay, w: Relay, h: F.Input, vs: seq<F.Input>) {
    && Sending(from, w.sender, h.packet) && Receiving(env, from, w.receiver, h.packet, |Voiced(vs)|)
    && exists out, wires :: w.out == from.out + out && w.wires == from.wires + wires
         && Heard(env, |from.wires|, Successor(from.receiver.lastId), out, wires, h, Voiced(vs))
  }

  lemma HeardMore(env: Setting, base: nat, sid: nat, out: seq<Packet>, wires: seq<Data>, h: F.Input, voices: seq<F.Ambe>,
                  q: Packet, d: Data, ambe: F.Ambe)
    requires Heard(env, base, sid, out, wires, h, voices) && Carries(env, q, sid, 1 + |voices|, h.packet)
    requires VoiceOut(env, q, |voices|, base + |wires|, d, ambe)
    ensures Heard(env, base, sid, out + [q], wires + [d], h, voices + [ambe])
  {
    hide Carries, VoiceOut, LcOut, RT.IsHeader;
    var out', wires', voices' := out + [q], wires + [d], voices + [ambe];
    assert forall n :: 0 <= n < |out| ==> out'[n] == out[n];
    assert forall n :: 0 <= n < |wires| ==> wires'[n] == wires[n];
    assert forall n :: 0 <= n < |voices| ==> voices'[n] == voices[n];
  }

  lemma VoicedNext(vs: seq<F.Input>, v: F.Input)
    ensures Voiced(vs + [v]) == if v.voice.Some? then Voiced(vs) + [v.voice.value.0] else Voiced(vs)
  {
    assert (vs + [v])[..|vs|] == vs;
  }

  lemma VoiceStep(env: Setting, from: Relay, w: Relay, h: F.Input, vs: seq<F.Input>, v: F.Input, now: nat)
    requires Underway(env, from, w, h, vs) && F.Accepted(h) && F.VoiceFrame(v.packet) && OfCall(v.packet, h.packet)
    ensures Underway(env, from, Send(env, w, v, now), h, vs + [v])
  {
    hide Send, F.Sent, F.Next, F.Serving, F.KindOf, F.LegalServer, F.VoiceFrame, R.PacketFor, Receive, ReceiveAll,
      Sending, Receiving, Heard,
      FrameAt, Voiced, Successor, Carries, VoiceOut;
    VoicedNext(vs, v);
    SendKnown(from, w.sender, v, now, h.packet);
    SendIs(env, w, v, now);
    var st := F.Serving(w.sender, v, now, None);
    var w0 := w.(sender := F.Next(w.sender, v, now, None));
    if v.voice.None? {
      NothingSent(st, v, env.peerId);
      ReceiveNone(env, w0, now);
    } else {
      var d := VoiceSent(st, v, env.peerId);
      ReceiveOne(env, w0, d, now);
      VoiceComesOut(env, from, w0, st, v, now, d, h.packet, |Voiced(vs)|);
      var base, sid := |from.wires|, Successor(from.receiver.lastId);
      var out, wires :| w.out == from.out + out && w.wires == from.wires + wires && Heard(env, base, sid, out, wires, h, Voiced(vs));
      var w' := Receive(env, w0, d, now);
      var q := w'.out[|w.out|];
      HeardMore(env, base, sid, out, wires, h, Voiced(vs), q, d, v.voice.value.0);
      assert w'.out == from.out + (out + [q]) && w'.wires == from.wires + (wires + [d]);
    }
  }

  lemma ReceiveNone(env: Setting, w: Relay, now: nat)
    ensures ReceiveAll(env, w, [], now) == w
  {
  }

  /** The terminator comes out, and the receiver forgets the call. */
  lemma TerminatorArrives(env: Setting, from: Relay, w: Relay, st: F.Stream, i: F.Input, now: nat, d: Data, p: Packet, voices: nat)
    requires Receiving(env, from, w.receiver, p, voices) && F.KindOf(i).Terminator? && OfCall(i.packet, p)
    requires F.Sent(st, i, env.peerId) == [d] && d != [] && st.callControl == Successor(from.sender.lastCall)
    ensures var w', there := Receive(env, w, d, now), w.receiver.streams[|from.receiver.streams|];
      var f := FrameAt(env, |w.wires|, d);
      R.Translatable(f) &&
      var q := R.PacketFor(there, f, R.Terminator, env.repeater, env.colorCode);
      && w'.sender == w.sender && w'.wires == w.wires + [d] && w'.out == w.out + [q]
      && Successor(from.sender.lastCall) !in w'.receiver.aliases
      && IsTerminator(q) && LcOut(q, i.lc) && Carries(env, q, Successor(from.receiver.lastId), 1 + voices, p)
  {
    hide F.KindOf, F.Sent, R.KindOf, R.PacketFor, R.Advanced, Receive, TR.Arrives, FrameAt, Honest, Carries, LcOut, LcIn, Successor,
      IsTerminator, TR.SameCall;
    var f, there := FrameAt(env, |w.wires|, d), w.receiver.streams[|from.receiver.streams|];
    FrameArrives(env, |w.wires|, d, F.Sent(st, i, env.peerId));
    CallTranslatableFrame(st, i, env.peerId, f);
    TR.LcRelayed(st, i, env.peerId, f, there, env.repeater, env.colorCode);
    SameAsCall(f, i.packet, p, st.callControl);
    ReceiveKnown(env, from, w, d, now, p, voices);
    RepeatedHeader(f);
    RT.KindShows(there, f, env.repeater, env.colorCode);
    PacketCarries(env, from, there, |w.wires|, d, R.Terminator, p, 1 + voices);
    LcPacket(f, there, R.Terminator, env, i.lc);
  }

  /** What comes out of a whole call. */
  ghost predicate WholeCall(env: Setting, base: nat, sid: nat, out: seq<Packet>, wires: seq<Data>, h: F.Input,
                  vs: seq<F.Input>, t: F.Input) {
    var n := 1 + |Voiced(vs)|;
    && |out| == n + 1 && |wires| == n + 2 && Heard(env, base, sid, out[..n], wires[..n + 1], h, Voiced(vs))
    && IsTerminator(out[n]) && LcOut(out[n], t.lc) && Carries(env, out[n], sid, n, h.packet)
  }

  lemma TerminatorStep(env: Setting, from: Relay, w: Relay, h: F.Input, vs: seq<F.Input>, t: F.Input, now: nat)
    requires Underway(env, from, w, h, vs) && F.Accepted(h) && F.KindOf(t).Terminator? && OfCall(t.packet, h.packet)
    ensures var w' := Send(env, w, t, now);
      && (exists out, wires :: w'.out == from.out + out && w'.wires == from.wires + wires
            && WholeCall(env, |from.wires|, Successor(from.receiver.lastId), out, wires, h, vs, t))
      && h.packet.streamId !in w'.sender.aliases && Successor(from.sender.lastCall) !in w'.receiver.aliases
  {
    hide Send, F.Sent, F.Next, F.Serving, F.KindOf, F.LegalServer, R.PacketFor, Receive, ReceiveAll, Sending, Receiving, Heard,
      FrameAt, Voiced, Successor, Carries, LcOut, IsTerminator, WholeCall;
    SendKnown(from, w.sender, t, now, h.packet);
    SendIs(env, w, t, now);
    var st := F.Serving(w.sender, t, now, None);
    var w0 := w.(sender := F.Next(w.sender, t, now, None));
    var d := TerminatorSent(st, t, env.peerId);
    ReceiveOne(env, w0, d, now);
    TerminatorArrives(env, from, w0, st, t, now, d, h.packet, |Voiced(vs)|);
    var base, sid := |from.wires|, Successor(from.receiver.lastId);
    var out, wires :| w.out == from.out + out && w.wires == from.wires + wires && Heard(env, base, sid, out, wires, h, Voiced(vs));
    var w' := Receive(env, w0, d, now);
    var q := w'.out[|w.out|];
    CallHeard(env, base, sid, out, wires, h, vs, t, q, d);
    assert w'.out == from.out + (out + [q]) && w'.wires == from.wires + (wires + [d]);
  }

  lemma CallHeard(env: Setting, base: nat, sid: nat, out: seq<Packet>, wires: seq<Data>, h: F.Input, vs: seq<F.Input>, t: F.Input,
                  q: Packet, d: Data)
    requires Heard(env, base, sid, out, wires, h, Voiced(vs))
    requires IsTerminator(q) && LcOut(q, t.lc) && Carries(env, q, sid, 1 + |Voiced(vs)|, h.packet)
    ensures WholeCall(env, base, sid, out + [q], wires + [d], h, vs, t)
  {
    hide Carries, LcOut, IsTerminator, VoiceOut, RT.IsHeader;
    var n := 1 + |Voiced(vs)|;
    assert (out + [q])[..n] == out && (wires + [d])[..n + 1] == wires;
  }

  lemma {:induction false} VoiceSteps(env: Setting, from: Relay, h: F.Input, vs: seq<F.Input>, times: seq<nat>)
    requires F.Shape(from.sender) && R.Shape(from.receiver) && F.Accepted(h) && F.KindOf(h).VoiceHeader?
    requires h.packet.streamId !in from.sender.aliases && Successor(from.sender.lastCall) !in from.receiver.aliases
    requires VoiceOf(vs, h.packet) && |times| == 1 + |vs| && NewCall(env, from, h, times[0])
    ensures Underway(env, from, SendAll(env, from, [h] + vs, times), h, vs)
    decreases |vs|
  {
    hide Send, Sending, Receiving, Heard, Successor, F.KindOf, F.VoiceFrame, NewCall;
    var ins := [h] + vs;
    if vs == [] {
      assert ins[..0] == [] && SendAll(env, from, [], []) == from;
      HeaderStep(env, from, h, times[0]);
    } else {
      var n := |vs| - 1;
      VoiceSteps(env, from, h, vs[..n], times[..n + 1]);
      assert ins[..n + 1] == [h] + vs[..n] && ins[n + 1] == vs[n] && vs[..n] + [vs[n]] == vs;
      VoiceStep(env, from, SendAll(env, from, [h] + vs[..n], times[..n + 1]), h, vs[..n], vs[n], times[n + 1]);
    }
  }

  /**
    A call sent under a new stream id, from any states of the two translators in which its call control leads nowhere
    yet and its first packet joins no recent stream: it comes out as one stream, numbered from 0, with one header first,
    then its voice in order and in phase, then one terminator; header and terminator hold the link control that went in;
    and neither side knows the call any more.
   */
  lemma CallRelayed(env: Setting, from: Relay, h: F.Input, vs: seq<F.Input>, t: F.Input, times: seq<nat>)
    requires F.Shape(from.sender) && R.Shape(from.receiver) && F.Accepted(h) && |times| == 2 + |vs|
    requires h.packet.streamId !in from.sender.aliases && Successor(from.sender.lastCall) !in from.receiver.aliases
    requires F.KindOf(h).VoiceHeader? && VoiceOf(vs, h.packet) && F.KindOf(t).Terminator? && OfCall(t.packet, h.packet)
    requires NewCall(env, from, h, times[0])
    ensures var w := SendAll(env, from, [h] + vs + [t], times);
      && (exists out, wires :: w.out == from.out + out && w.wires == from.wires + wires
            && WholeCall(env, |from.wires|, Successor(from.receiver.lastId), out, wires, h, vs, t))
      && h.packet.streamId !in w.sender.aliases && Successor(from.sender.lastCall) !in w.receiver.aliases
  {
    hide Send, Underway, WholeCall, Successor, F.KindOf, VoiceOf, NewCall;
    var n, ins := 1 + |vs|, [h] + vs + [t];
    VoiceSteps(env, from, h, vs, times[..n]);
    assert ins[..n] == [h] + vs && ins[n] == t;
    TerminatorStep(env, from, SendAll(env, from, [h] + vs, times[..n]), h, vs, t, times[n]);
  }

  const FRESH := Relay(FT.START, RT.START, [], [])

  lemma FreshIsNew(env: Setting, h: F.Input, now: nat)
    requires F.Accepted(h)
    ensures F.LegalServer(FRESH.sender, h, None) && R.Shape(FRESH.receiver) && NewCall(env, FRESH, h, now)
  {
    hide F.Sent, F.Serving, FrameAt, R.Translatable;
    assert forall d: Data :: d != [] && R.Translatable(FrameAt(env, 0, d)) ==> R.LegalFind(FRESH.receiver, FrameAt(env, 0, d), now, None);
  }

  /** The first call between two fresh translators: it meets every condition, and comes out as stream 1. */
  lemma FirstCallRelayed(env: Setting, h: F.Input, vs: seq<F.Input>, t: F.Input, times: seq<nat>)
    requires F.Accepted(h) && |times| == 2 + |vs|
    requires h.packet.frameType == 2 && h.packet.dtypeOrVSeq == 1 && IsTerminator(t.packet) && OfCall(t.packet, h.packet)
    requires VoiceOf(vs, h.packet)
    ensures var w := SendAll(env, FRESH, [h] + vs + [t], times);
      WholeCall(env, 0, 1, w.out, w.wires, h, vs, t) && h.packet.streamId !in w.sender.aliases && 1 !in w.receiver.aliases
  {
    hide F.KindOf, F.Sent, F.Serving, NewCall, WholeCall, SendAll, Successor, VoiceOf, IsTerminator;
    FreshIsNew(env, h, times[0]);
    FirstId();
    EndKinds(h, t);
    CallRelayed(env, FRESH, h, vs, t, times);
    var w := SendAll(env, FRESH, [h] + vs + [t], times);
    var out, wires :| w.out == FRESH.out + out && w.wires == FRESH.wires + wires && WholeCall(env, 0, 1, out, wires, h, vs, t);
    assert [] + out == out && [] + wires == wires;
  }

  lemma FirstId()
    ensures Successor(0) == 1
  {
  }

  lemma EndKinds(h: F.Input, t: F.Input)
    requires h.packet.frameType == 2 && h.packet.dtypeOrVSeq == 1 && IsTerminator(t.packet)
    ensures F.KindOf(h).VoiceHeader? && F.KindOf(t).Terminator?
  {
  }
}
