/** The pre-CAN form of a reply: framed and checksummed by the emulator (`k_line_frames`,
    simulator/src/elm.rs), joined by the adapter (`assemble_non_can`, core/adapter/src/elm327.rs). */
module Legacy {
  import opened Wrappers
  import opened Text
  import opened Hex
  import opened IsoTp
  import opened FrameText
  import opened Assemble

  // ---- Framing ----

  predicate IsFaultList(service: Byte) {
    service == 0x43 || service == 0x47 || service == 0x4A
  }

  predicate IsNumbered(payload: seq<Byte>) {
    && |payload| > 3 && payload[0] == 0x49
    && (payload[1] == 0x02 || payload[1] == 0x04 || payload[1] == 0x06 || payload[1] == 0x0A)
  }

  /** `s[lo..hi]`, as far as `s` goes. */
  function Slice(s: seq<Byte>, lo: nat, hi: nat): (t: seq<Byte>)
    requires lo <= hi
    ensures |t| <= hi - lo
  {
    if lo >= |s| then [] else s[lo..Min(hi, |s|)]
  }

  /** `resize(n, 0)` for something no longer than `n`. */
  function Resize(s: seq<Byte>, n: nat): seq<Byte>
    requires |s| <= n
  {
    s + Zeros(n - |s|)
  }

  /** Three codes to a frame after the service byte; one empty frame when there are none. */
  function FaultFrames(service: Byte, codes: seq<Byte>): (frames: seq<seq<Byte>>)
    ensures |frames| >= 1
  {
    var n := if codes == [] then 1 else (|codes| + 5) / 6;
    seq(n, i requires 0 <= i < n => Resize([service] + Slice(codes, 6 * i, 6 * i + 6), 7))
  }

  /** Four bytes to a frame after the service, the item and the frame's own number from one. */
  function InfoFrames(pid: Byte, data: seq<Byte>): seq<seq<Byte>> {
    seq((|data| + 3) / 4, i requires 0 <= i < (|data| + 3) / 4 => InfoFrame(pid, data, i))
  }

  function InfoFrame(pid: Byte, data: seq<Byte>, i: nat): (f: seq<Byte>)
    ensures |f| == 7
  {
    Resize([0x49, pid, ((i + 1) % 0x100) as Byte] + Slice(data, 4 * i, 4 * i + 4), 7)
  }

  /** A VIN is padded in front to twenty bytes. */
  function InfoData(payload: seq<Byte>): seq<Byte>
    requires |payload| > 3
  {
    var data := payload[3..];
    if payload[1] == 0x02 && |data| < 20 then Zeros(20 - |data|) + data else data
  }

  /** `k_line_frames` */
  function KLineFrames(payload: seq<Byte>): seq<seq<Byte>>
    requires payload != []
  {
    if IsFaultList(payload[0]) then FaultFrames(payload[0], Slice(payload, 2, 2 + |payload|))
    else if IsNumbered(payload) then InfoFrames(payload[1], InfoData(payload))
    else [payload]
  }

  function Sum(bytes: seq<Byte>): (b: Byte) {
    if bytes == [] then 0 else ((Sum(bytes[..|bytes| - 1]) as nat + bytes[|bytes| - 1] as nat) % 0x100) as Byte
  }

  /** Priority, target and source before the frame, the checksum after it. */
  function Framed(source: Byte, frame: seq<Byte>): seq<Byte> {
    var bytes := [0x48, 0x6B, source] + frame;
    bytes + [Sum(bytes)]
  }

  function Total(bytes: seq<Byte>): nat {
    if bytes == [] then 0 else bytes[0] as nat + Total(bytes[1..])
  }

  lemma {:induction false} TotalLast(bytes: seq<Byte>, b: Byte)
    ensures Total(bytes + [b]) == Total(bytes) + b as nat
  {
    if bytes == [] {
      assert [b][1..] == [] && [] + [b] == [b];
    } else {
      assert (bytes + [b])[1..] == bytes[1..] + [b];
      TotalLast(bytes[1..], b);
    }
  }

  lemma {:induction false} SumIsTotal(bytes: seq<Byte>)
    ensures Sum(bytes) as nat == Total(bytes) % 0x100
  {
    if bytes != [] {
      var init, last := bytes[..|bytes| - 1], bytes[|bytes| - 1];
      SumIsTotal(init);
      TotalLast(init, last);
      assert bytes == init + [last];
    }
  }

  /** A line on the K-line: header for the tester, source, frame, and last the sum of all before it modulo
      256. */
  lemma Checksummed(source: Byte, frame: seq<Byte>)
    ensures var b := Framed(source, frame);
            && |b| == |frame| + 4 && b[..3] == [0x48, 0x6B, source] && b[3..|b| - 1] == frame
            && b[|b| - 1] as nat == Total(b[..|b| - 1]) % 0x100
  {
    var bytes := [0x48, 0x6B, source] + frame;
    SumIsTotal(bytes);
    assert Framed(source, frame)[..|bytes|] == bytes;
  }

  /** With headers off neither header nor checksum is shown. */
  function FormatBytes(bytes: seq<Byte>, headers: bool, spaces: bool): string
    requires |bytes| >= 4
  {
    DataText(if headers then bytes else bytes[3..|bytes| - 1], spaces)
  }

  function LegacyLine(source: Byte, frame: seq<Byte>, headers: bool, spaces: bool): string {
    FormatBytes(Framed(source, frame), headers, spaces)
  }

  datatype LegacyReply = LegacyReply(source: Byte, payload: seq<Byte>)

  /** One line a frame. */
  function LegacyLines(reply: LegacyReply, headers: bool, spaces: bool): (lines: seq<string>)
    requires reply.payload != []
  {
    var frames := KLineFrames(reply.payload);
    seq(|frames|, i requires 0 <= i < |frames| => LegacyLine(reply.source, frames[i], headers, spaces))
  }

  /** The replies one after another. */
  function AllLegacy(replies: seq<LegacyReply>, headers: bool, spaces: bool): seq<string> {
    if replies == [] then []
    else
      var last := replies[|replies| - 1];
      AllLegacy(replies[..|replies| - 1], headers, spaces) + (if last.payload == [] then [] else LegacyLines(last, headers, spaces))
  }

  /** The K-line branch of `handle_obd`. */
  method PrintLegacy(replies: seq<LegacyReply>, headers: bool, spaces: bool) returns (lines: seq<string>)
    requires forall i :: 0 <= i < |replies| ==> replies[i].payload != []
    ensures lines == AllLegacy(replies, headers, spaces)
  {
    hide KLineFrames;
    lines := [];
    for i := 0 to |replies|
      invariant lines == AllLegacy(replies[..i], headers, spaces)
    {
      assert replies[..i + 1][..i] == replies[..i];
      var own := PrintOne(replies[i], headers, spaces);
      lines := lines + own;
    }
    assert replies[..|replies|] == replies;
  }

  method PrintOne(reply: LegacyReply, headers: bool, spaces: bool) returns (lines: seq<string>)
    requires reply.payload != []
    ensures lines == LegacyLines(reply, headers, spaces)
  {
    hide KLineFrames, DataText, Sum;
    var frames := KLineFrames(reply.payload);
    lines := [];
    for i := 0 to |frames|
      invariant |lines| == i && forall k :: 0 <= k < i ==> lines[k] == LegacyLine(reply.source, frames[k], headers, spaces)
    {
      var bytes := [0x48, 0x6B, reply.source] + frames[i];
      bytes := bytes + [Sum(bytes)];
      lines := lines + [FormatBytes(bytes, headers, spaces)];
    }
  }

  // ---- Joining ----

  datatype LegacyFrame = LegacyFrame(source: string, data: seq<Byte>)

  /** A printed line as its source and data; noise is skipped. */
  function DecodeLegacy(line: string): Option<LegacyFrame> {
    var hex := Unspaced(line);
    if hex == [] || |hex| % 2 != 0 || !AllHex(hex) || |hex| < 10 then None
    else
      var bytes := Pairs(hex);
      Some(LegacyFrame(TwoDigits(bytes[2]), bytes[3..|bytes| - 1]))
  }

  /** Inserted after every frame whose number is not larger. */
  function Insert(sorted: seq<seq<Byte>>, f: seq<Byte>): (r: seq<seq<Byte>>)
    requires |f| >= 3 && forall i :: 0 <= i < |sorted| ==> |sorted[i]| >= 3
    ensures |r| == |sorted| + 1 && forall i :: 0 <= i < |r| ==> |r[i]| >= 3
  {
    if sorted == [] || sorted[|sorted| - 1][2] <= f[2] then sorted + [f]
    else Insert(sorted[..|sorted| - 1], f) + [sorted[|sorted| - 1]]
  }

  /** `sort_by_key` on the frame number, of the frames long enough to have one. */
  function SortNumbered(frames: seq<seq<Byte>>): (r: seq<seq<Byte>>)
    ensures forall i :: 0 <= i < |r| ==> |r[i]| >= 3
  {
    if frames == [] then []
    else
      var rest, f := SortNumbered(frames[..|frames| - 1]), frames[|frames| - 1];
      if |f| >= 3 then Insert(rest, f) else rest
  }

  /** How many frames from the first on are numbered one, two, three, and so forth. */
  function RunLength(sorted: seq<seq<Byte>>, i: nat): (r: nat)
    requires i <= |sorted| && forall k :: 0 <= k < |sorted| ==> |sorted[k]| >= 3
    ensures i <= r <= |sorted|
    ensures forall k :: i <= k < r ==> sorted[k][2] as nat == k + 1
    ensures r < |sorted| ==> sorted[r][2] as nat != r + 1
    decreases |sorted| - i
  {
    if i < |sorted| && sorted[i][2] as nat == i + 1 then RunLength(sorted, i + 1) else i
  }

  /** The data of frames after their first `skip` bytes. */
  function Tails(frames: seq<seq<Byte>>, skip: nat): seq<Byte> {
    if frames == [] then []
    else
      var f := frames[|frames| - 1];
      Tails(frames[..|frames| - 1], skip) + (if skip <= |f| then f[skip..] else [])
  }

  /** One source's frames as one payload. */
  function Joined(frames: seq<seq<Byte>>): seq<Byte>
    requires frames != [] && forall i :: 0 <= i < |frames| ==> frames[i] != []
  {
    if |frames| == 1 then frames[0]
    else if IsFaultList(frames[0][0]) then [frames[0][0]] + Tails(frames, 1)
    else if frames[0][0] != 0x49 then frames[0]
    else
      var sorted := SortNumbered(frames);
      var r := RunLength(sorted, 0);
      if r == 0 then [] else sorted[0][..2] + Tails(sorted[..r], 3)
  }

  /** `join_legacy_frames` */
  method JoinLegacyFrames(frames: seq<seq<Byte>>) returns (payload: seq<Byte>)
    requires frames != [] && forall i :: 0 <= i < |frames| ==> frames[i] != []
    ensures payload == Joined(frames)
  {
    if |frames| == 1 {
      return frames[0];
    }
    var service := frames[0][0];
    if IsFaultList(service) {
      payload := [service];
      for i := 0 to |frames|
        invariant payload == [service] + Tails(frames[..i], 1)
      {
        assert frames[..i + 1][..i] == frames[..i];
        payload := payload + frames[i][1..];
      }
      assert frames[..|frames|] == frames;
      return payload;
    }
    if service != 0x49 {
      return frames[0];
    }
    payload := JoinNumbered(SortNumbered(frames));
  }

  method JoinNumbered(numbered: seq<seq<Byte>>) returns (payload: seq<Byte>)
    requires forall i :: 0 <= i < |numbered| ==> |numbered[i]| >= 3
    ensures payload == var r := RunLength(numbered, 0); if r == 0 then [] else numbered[0][..2] + Tails(numbered[..r], 3)
  {
    payload := [];
    ghost var r := RunLength(numbered, 0);
    for i := 0 to |numbered|
      invariant i <= r
      invariant payload == if i == 0 then [] else numbered[0][..2] + Tails(numbered[..i], 3)
    {
      var data := numbered[i];
      assert numbered[..i + 1][..i] == numbered[..i];
      if data[2] as nat != i + 1 {
        break;
      }
      if i == 0 {
        payload := payload + data[..2];
      }
      payload := payload + data[3..];
    }
  }

  /** One source's frames, in the order they came. */
  function OwnFrames(lines: seq<string>, a: string): (frames: seq<seq<Byte>>)
    ensures forall i :: 0 <= i < |frames| ==> frames[i] != []
  {
    if lines == [] then []
    else
      var d := DecodeLegacy(lines[|lines| - 1]);
      OwnFrames(lines[..|lines| - 1], a) + (if d.Some? && d.value.source == a then [d.value.data] else [])
  }

  function OwnText(lines: seq<string>, a: string): (text: seq<string>)
    ensures |text| == |OwnFrames(lines, a)|
  {
    if lines == [] then []
    else
      var d := DecodeLegacy(lines[|lines| - 1]);
      OwnText(lines[..|lines| - 1], a) + (if d.Some? && d.value.source == a then [lines[|lines| - 1]] else [])
  }

  type Sources = map<string, (seq<seq<Byte>>, seq<string>)>

  /** The frames of each source that sent any. */
  ghost predicate Gathered(sources: Sources, lines: seq<string>) {
    forall a: string ::
      && (a in sources <==> OwnFrames(lines, a) != [])
      && (a in sources ==> sources[a] == (OwnFrames(lines, a), OwnText(lines, a)))
  }

  /** One message for every source that sent a frame, its frames joined, in address order. */
  ghost predicate IsLegacyListing(out: seq<EcuMessage>, lines: seq<string>) {
    && (forall i, j :: 0 <= i < j < |out| ==> Less(out[i].address, out[j].address))
    && (forall i :: 0 <= i < |out| ==>
          var a := out[i].address;
          OwnFrames(lines, a) != [] && out[i] == EcuMessage(a, Joined(OwnFrames(lines, a)), OwnText(lines, a), None))
    && (forall a: string :: OwnFrames(lines, a) != [] ==> exists i :: 0 <= i < |out| && out[i].address == a)
  }

  /** `assemble_non_can` */
  method AssembleNonCan(lines: seq<string>) returns (out: seq<EcuMessage>)
    ensures IsLegacyListing(out, lines)
  {
    var sources := Gather(lines);
    var all: map<string, EcuMessage> := map[];
    var todo := sources.Keys;
    while todo != {}
      invariant todo <= sources.Keys && all.Keys == sources.Keys - todo
      invariant forall a :: a in all ==> all[a] == EcuMessage(a, Joined(OwnFrames(lines, a)), OwnText(lines, a), None)
      decreases todo
    {
      var a :| a in todo;
      todo := todo - {a};
      var payload := JoinLegacyFrames(sources[a].0);
      all := all[a := EcuMessage(a, payload, sources[a].1, None)];
    }
    out := List(all);
  }

  lemma NoLines()
    ensures forall a: string :: OwnFrames([], a) == [] && OwnText([], a) == []
  {
  }

  /** One more line is one more frame for its source and nothing for the others. */
  lemma OwnNext(lines: seq<string>, i: nat, a: string)
    requires i < |lines|
    ensures var d := DecodeLegacy(lines[i]);
            if d.Some? && d.value.source == a then
              && OwnFrames(lines[..i + 1], a) == OwnFrames(lines[..i], a) + [d.value.data]
              && OwnText(lines[..i + 1], a) == OwnText(lines[..i], a) + [lines[i]]
            else
              && OwnFrames(lines[..i + 1], a) == OwnFrames(lines[..i], a)
              && OwnText(lines[..i + 1], a) == OwnText(lines[..i], a)
  {
    hide DecodeLegacy;
    assert lines[..i + 1][..i] == lines[..i];
    assert OwnFrames(lines[..i], a) + [] == OwnFrames(lines[..i], a);
    assert OwnText(lines[..i], a) + [] == OwnText(lines[..i], a);
  }

  method Gather(lines: seq<string>) returns (sources: Sources)
    ensures Gathered(sources, lines)
  {
    hide DecodeLegacy, OwnFrames, OwnText;
    sources := map[];
    NoLines();
    for i := 0 to |lines|
      invariant Gathered(sources, lines[..i])
    {
      forall a: string {
        OwnNext(lines, i, a);
      }
      var d := DecodeLegacy(lines[i]);
      if d.None? {
        continue;
      }
      var a := d.value.source;
      var before := if a in sources then sources[a] else ([], []);
      sources := sources[a := (before.0 + [d.value.data], before.1 + [lines[i]])];
    }
    assert lines[..|lines|] == lines;
  }
}
