/** Evidence about a session's negotiated stream profile: `session_info` tags what a response says,
    and `preserve_session_profile` merges it with what earlier responses said. */
module Profile {
  import opened Wrappers

  // `Absent` is a profile without the source key at all.
  datatype Source = Absent | Unreported | Request | Server | Finalized

  datatype Field<+T> = Field(value: Option<T>, source: Source)

  datatype Codec = H264 | H265 | AV1

  datatype Color = Color(bits: nat, chroma444: bool)

  datatype Profile = Profile(
    codec: Field<Codec>,
    bitDepth: Field<int>,
    chromaFormat: Field<int>,
    enableHdr: Field<bool>,
    colorQuality: Option<Color>)

  datatype Info = Info(sessionId: string, status: int, profile: Profile)

  function ProfileColor(depth: Option<int>, chroma: Option<int>): Option<Color> {
    if depth in {Some(8), Some(10)} && chroma in {Some(0), Some(1)}
    then Some(Color(depth.value, chroma.value == 1))
    else None
  }

  // ---- Tagging a response ----

  // A JSON member: missing, present with an integer, or present with anything else.
  datatype Raw = Missing | Other | Int(n: int)

  datatype Features = Features(codec: Raw, bitDepth: Raw, chromaFormat: Raw)

  // `reportedCodec` is the codec member of the response's own profile: None when missing.
  datatype Response = Response(
    sessionId: string, status: int, requested: Features, finalized: Features,
    reportedCodec: Option<Option<Codec>>, hdrMode: Raw)

  function Overlay(requested: Raw, finalized: Raw): Raw {
    if finalized.Missing? then requested else finalized
  }

  function Depth(r: Raw): Option<int> {
    if r.Int? && (r.n == 0 || r.n == 8) then Some(8) else if r.Int? && (r.n == 1 || r.n == 10) then Some(10) else None
  }

  function Chroma(r: Raw): Option<int> {
    if r.Int? && (r.n == 0 || r.n == 1) then Some(r.n) else None
  }

  function CodecFromWire(r: Raw): Option<Codec> {
    if r == Int(1) then Some(H264) else if r == Int(2) then Some(H265) else if r == Int(3) then Some(AV1) else None
  }

  function FeatureSource(requested: Raw, finalized: Raw): Source {
    if !finalized.Missing? then Finalized else if !requested.Missing? then Request else Unreported
  }

  function SessionInfo(r: Response): Info {
    var q, f := r.requested, r.finalized;
    var depth := Field(Depth(Overlay(q.bitDepth, f.bitDepth)), FeatureSource(q.bitDepth, f.bitDepth));
    var chroma := Field(Chroma(Overlay(q.chromaFormat, f.chromaFormat)), FeatureSource(q.chromaFormat, f.chromaFormat));
    var wire := Overlay(q.codec, f.codec);
    var codec := if r.reportedCodec.Some? then r.reportedCodec.value else CodecFromWire(wire);
    Info(r.sessionId, r.status, Profile(
      Field(codec, if r.reportedCodec.Some? || !wire.Missing? then Server else Unreported),
      depth, chroma,
      Field(if r.hdrMode.Int? then Some(r.hdrMode.n == 1) else None, if r.hdrMode.Missing? then Unreported else Server),
      ProfileColor(depth.value, chroma.value)))
  }

  // ---- Merging ----

  function Merge<T>(prev: Field<T>, cur: Field<T>): Field<T> {
    if (cur.source.Unreported? || (cur.source.Request? && prev.source.Finalized?))
       && (prev.source.Request? || prev.source.Server? || prev.source.Finalized?)
    then prev else cur
  }

  function MergeCodec(prev: Field<Codec>, cur: Field<Codec>): Field<Codec> {
    if (cur.source.Unreported? || (cur.source.Request? && prev.source.Server?))
       && prev.value.Some? && (prev.source.Request? || prev.source.Server?)
    then prev else cur
  }

  function Preserve(cur: Info, prev: Info): Info {
    if cur.sessionId == "" || prev.sessionId != cur.sessionId then cur
    else
      var c, p := cur.profile, prev.profile;
      var depth, chroma := Merge(p.bitDepth, c.bitDepth), Merge(p.chromaFormat, c.chromaFormat);
      cur.(profile := Profile(
        MergeCodec(p.codec, c.codec), depth, chroma, Merge(p.enableHdr, c.enableHdr),
        if depth.source.Absent? && chroma.source.Absent? then c.colorQuality else ProfileColor(depth.value, chroma.value)))
  }

  /** `preserve_session_profile`, which edits its argument member by member. */
  method PreserveSessionProfile(info: Info, previous: Info) returns (updated: Info)
    ensures updated == Preserve(info, previous)
  {
    updated := info;
    if info.sessionId == "" || previous.sessionId != info.sessionId {
      return;
    }
    var p, c := previous.profile, info.profile;
    if (c.codec.source.Unreported? || (c.codec.source.Request? && p.codec.source.Server?))
       && p.codec.value.Some? && p.codec.source in {Request, Server}
    {
      c := c.(codec := p.codec);
    }
    c := c.(bitDepth := Merge(p.bitDepth, c.bitDepth));
    c := c.(chromaFormat := Merge(p.chromaFormat, c.chromaFormat));
    c := c.(enableHdr := Merge(p.enableHdr, c.enableHdr));
    if !c.bitDepth.source.Absent? || !c.chromaFormat.source.Absent? {
      c := c.(colorQuality := ProfileColor(c.bitDepth.value, c.chromaFormat.value));
    }
    updated := updated.(profile := c);
  }

  // The active slot after a response, and the response as the caller sees it.
  function Store(active: Option<Info>, info: Info): (Option<Info>, Info) {
    if info.status == 7 then
      (if active.Some? && active.value.sessionId == info.sessionId then None else active, info)
    else
      var merged := if active.Some? then Preserve(info, active.value) else info;
      (Some(merged), merged)
  }

  class ActiveSession {
    var active: Option<Info>

    constructor ()
      ensures active == None
    {
      active := None;
    }

    method StoreActive(info: Info) returns (seen: Info)
      modifies this
      ensures (active, seen) == Store(old(active), info)
      // Status 7 ends the session it names and no other; the response is passed on as it is.
      ensures info.status == 7 ==> seen == info
      ensures info.status == 7 && old(active).Some? && old(active).value.sessionId == info.sessionId ==> active == None
      ensures info.status == 7 && !(old(active).Some? && old(active).value.sessionId == info.sessionId) ==>
                active == old(active)
      // Any other status makes the session active, with what the caller sees; another session's profile
      // does not enter.
      ensures info.status != 7 ==> active == Some(seen) && seen.sessionId == info.sessionId && seen.status == info.status
      ensures info.status != 7 && (old(active).Some? ==> old(active).value.sessionId != info.sessionId || info.sessionId == "") ==>
                seen == info
    {
      seen := info;
      if info.status == 7 {
        if active.Some? && active.value.sessionId == info.sessionId {
          active := None;
        }
        return;
      }
      if active.Some? {
        seen := PreserveSessionProfile(info, active.value);
      }
      active := Some(seen);
    }
  }

  // ---- What tagging guarantees ----

  // The sources a member's evidence can carry: colour members name the request or the finalized
  // features, the HDR member the server.
  predicate ColorSourced<T>(f: Field<T>) {
    f.source.Unreported? || f.source.Request? || f.source.Finalized?
  }

  predicate ServerSourced<T>(f: Field<T>) {
    f.source.Unreported? || f.source.Server?
  }

  predicate Tagged(info: Info) {
    && ColorSourced(info.profile.bitDepth) && ColorSourced(info.profile.chromaFormat)
    && info.profile.colorQuality == ProfileColor(info.profile.bitDepth.value, info.profile.chromaFormat.value)
  }

  /** Every tagged response has rankable sources and a colour that matches its components. */
  lemma ResponsesAreTagged(r: Response)
    ensures
      var info := SessionInfo(r);
      && Tagged(info)
      && ServerSourced(info.profile.enableHdr) && ServerSourced(info.profile.codec)
      && (info.profile.bitDepth.source.Unreported? ==> info.profile.bitDepth.value.None?)
      && (info.profile.enableHdr.source.Unreported? ==> info.profile.enableHdr.value.None?)
  {
  }

  /** A colour is shown exactly for the two known depths with the two known chroma formats. */
  lemma ColorTable(depth: Option<int>, chroma: Option<int>, bits: nat, full: bool)
    ensures ProfileColor(depth, chroma) == Some(Color(bits, full)) <==>
              depth == Some(bits) && (bits == 8 || bits == 10) && chroma == Some(if full then 1 else 0)
  {
  }

  /** The bit depth of a response: the finalized member decides if there is one, the requested one
      otherwise; 0 and 8 stand for 8 bits, 1 and 10 for 10, and anything else for no value. */
  lemma DepthOfResponse(r: Response)
    ensures
      var depth := SessionInfo(r).profile.bitDepth;
      var raw := if r.finalized.bitDepth != Missing then r.finalized.bitDepth else r.requested.bitDepth;
      && (depth.source == Finalized <==> r.finalized.bitDepth != Missing)
      && (depth.source == Request <==> r.finalized.bitDepth == Missing && r.requested.bitDepth != Missing)
      && (depth.value == Some(8) <==> raw == Int(0) || raw == Int(8))
      && (depth.value == Some(10) <==> raw == Int(1) || raw == Int(10))
      && (depth.value != Some(8) && depth.value != Some(10) ==> depth.value == None)
  {
  }

  /** The chroma format likewise, where only 0 and 1 are known. */
  lemma ChromaOfResponse(r: Response)
    ensures
      var chroma := SessionInfo(r).profile.chromaFormat;
      var raw := if r.finalized.chromaFormat != Missing then r.finalized.chromaFormat else r.requested.chromaFormat;
      && (chroma.source == Finalized <==> r.finalized.chromaFormat != Missing)
      && (chroma.source == Request <==> r.finalized.chromaFormat == Missing && r.requested.chromaFormat != Missing)
      && (chroma.value == Some(0) <==> raw == Int(0)) && (chroma.value == Some(1) <==> raw == Int(1))
      && (chroma.value != Some(0) && chroma.value != Some(1) ==> chroma.value == None)
  {
  }

  /** The codec and HDR members: the response's own profile decides over the wire number, and whatever
      is there at all counts as the server's word. */
  lemma ServerMembersOfResponse(r: Response)
    ensures
      var p := SessionInfo(r).profile;
      var raw := if r.finalized.codec != Missing then r.finalized.codec else r.requested.codec;
      && (r.reportedCodec.Some? ==> p.codec == Field(r.reportedCodec.value, Server))
      && (r.reportedCodec.None? ==>
            && (p.codec.value == Some(H264) <==> raw == Int(1)) && (p.codec.value == Some(H265) <==> raw == Int(2))
            && (p.codec.value == Some(AV1) <==> raw == Int(3))
            && p.codec.source == (if raw == Missing then Unreported else Server))
      && (p.enableHdr.value == Some(true) <==> r.hdrMode == Int(1))
      && (p.enableHdr.value == Some(false) <==> r.hdrMode.Int? && r.hdrMode != Int(1))
      && p.enableHdr.source == (if r.hdrMode == Missing then Unreported else Server)
  {
  }

  // ---- The merge as a ranked choice ----

  function Rank(s: Source): nat {
    match s
    case Finalized => 2
    case Request => 1
    case Server => 1
    case _ => 0
  }

  // All evidence of one member comes from one family of sources.
  predicate OneFamily<T>(fields: seq<Field<T>>) {
    (forall i | 0 <= i < |fields| :: ColorSourced(fields[i])) || (forall i | 0 <= i < |fields| :: ServerSourced(fields[i]))
  }

  function Fold<T>(fields: seq<Field<T>>): Field<T>
    requires fields != []
  {
    if |fields| == 1 then fields[0] else Merge(Fold(fields[..|fields| - 1]), fields[|fields| - 1])
  }

  // Report `i` has the highest rank, and no later report shares it.
  predicate LatestOfHighest<T>(fields: seq<Field<T>>, i: nat) {
    && i < |fields|
    && (forall j | 0 <= j < |fields| :: Rank(fields[j].source) <= Rank(fields[i].source))
    && (forall j | i < j < |fields| :: Rank(fields[j].source) < Rank(fields[i].source))
  }

  lemma {:induction false} FoldIsLatestOfHighest<T>(fields: seq<Field<T>>) returns (i: nat)
    requires fields != [] && OneFamily(fields)
    ensures LatestOfHighest(fields, i) && Fold(fields) == fields[i]
    decreases |fields|
  {
    var n := |fields| - 1;
    if n == 0 {
      i := 0;
    } else {
      var before := fields[..n];
      i := FoldIsLatestOfHighest(before);
      assert forall j | 0 <= j < n :: fields[j] == before[j];
      if Rank(fields[n].source) >= Rank(fields[i].source) {
        i := n;
      }
    }
  }

  /** What the highest rank means for a colour member: the last finalized report if there is one, else the
      last requested one if there is one, else the last report. */
  lemma HighestOfColors<T>(fields: seq<Field<T>>, i: nat)
    requires LatestOfHighest(fields, i) && forall j | 0 <= j < |fields| :: ColorSourced(fields[j])
    ensures (exists j | 0 <= j < |fields| :: fields[j].source == Finalized) ==>
              fields[i].source == Finalized && forall j | i < j < |fields| :: fields[j].source != Finalized
    ensures (forall j | 0 <= j < |fields| :: fields[j].source != Finalized)
            && (exists j | 0 <= j < |fields| :: fields[j].source == Request) ==>
              fields[i].source == Request && forall j | i < j < |fields| :: fields[j].source != Request
    ensures (forall j | 0 <= j < |fields| :: fields[j].source == Unreported) ==> i == |fields| - 1
  {
    if forall j | 0 <= j < |fields| :: fields[j].source == Unreported {
      var last := |fields| - 1;
      assert Rank(fields[last].source) == Rank(fields[i].source);
    }
  }

  /** And for a member only the server reports: its last report if there is one, else the last. */
  lemma HighestOfServer<T>(fields: seq<Field<T>>, i: nat)
    requires LatestOfHighest(fields, i) && forall j | 0 <= j < |fields| :: ServerSourced(fields[j])
    ensures (exists j | 0 <= j < |fields| :: fields[j].source == Server) ==>
              fields[i].source == Server && forall j | i < j < |fields| :: fields[j].source != Server
    ensures (forall j | 0 <= j < |fields| :: fields[j].source == Unreported) ==> i == |fields| - 1
  {
    if forall j | 0 <= j < |fields| :: fields[j].source == Unreported {
      var last := |fields| - 1;
      assert Rank(fields[last].source) == Rank(fields[i].source);
    }
  }

  /** The merge of one member's evidence is idempotent and associative. */
  lemma MergeLaws<T>(a: Field<T>, b: Field<T>, c: Field<T>)
    requires OneFamily([a, b, c])
    ensures Merge(a, a) == a
    ensures Merge(Merge(a, b), c) == Merge(a, Merge(b, c))
  {
    assert [a, b, c][0] == a && [a, b, c][1] == b && [a, b, c][2] == c;
  }

  // ---- Runs of one session's responses through the active slot ----

  // All evidence about one session, oldest first (for a new seat the request itself comes first).
  predicate OneSession(evidence: seq<Info>, id: string) {
    && evidence != [] && id != ""
    && (forall i | 0 <= i < |evidence| :: evidence[i].sessionId == id && evidence[i].status != 7)
  }

  function PreserveAll(evidence: seq<Info>): Info
    requires evidence != []
  {
    if |evidence| == 1 then evidence[0] else Preserve(evidence[|evidence| - 1], PreserveAll(evidence[..|evidence| - 1]))
  }

  function StoreAll(active: Option<Info>, infos: seq<Info>): Option<Info> {
    if infos == [] then active else Store(StoreAll(active, infos[..|infos| - 1]), infos[|infos| - 1]).0
  }

  function Depths(evidence: seq<Info>): seq<Field<int>> {
    seq(|evidence|, i requires 0 <= i < |evidence| => evidence[i].profile.bitDepth)
  }

  function Chromas(evidence: seq<Info>): seq<Field<int>> {
    seq(|evidence|, i requires 0 <= i < |evidence| => evidence[i].profile.chromaFormat)
  }

  function Hdrs(evidence: seq<Info>): seq<Field<bool>> {
    seq(|evidence|, i requires 0 <= i < |evidence| => evidence[i].profile.enableHdr)
  }

  lemma {:induction false} PreserveAllFolds(evidence: seq<Info>, id: string)
    requires OneSession(evidence, id) && forall i | 0 <= i < |evidence| :: Tagged(evidence[i])
    ensures
      var info := PreserveAll(evidence);
      && info.sessionId == id && Tagged(info)
      && info.profile.bitDepth == Fold(Depths(evidence))
      && info.profile.chromaFormat == Fold(Chromas(evidence))
      && info.profile.enableHdr == Fold(Hdrs(evidence))
    decreases |evidence|
  {
    var n := |evidence| - 1;
    if n > 0 {
      var before := evidence[..n];
      PreserveAllFolds(before, id);
      assert Depths(evidence)[..n] == Depths(before);
      assert Chromas(evidence)[..n] == Chromas(before);
      assert Hdrs(evidence)[..n] == Hdrs(before);
    }
  }

  lemma {:induction false} StoreAllPreserves(active: Option<Info>, infos: seq<Info>, id: string)
    requires OneSession(infos, id) && (active.Some? ==> active.value.sessionId != id)
    ensures StoreAll(active, infos) == Some(PreserveAll(infos)) && PreserveAll(infos).sessionId == id
    decreases |infos|
  {
    var n := |infos| - 1;
    if n > 0 {
      StoreAllPreserves(active, infos[..n], id);
    } else {
      assert infos[..0] == [];
    }
  }

  /** After any run of one session's responses, bit depth and chroma are each the most recent report
      among those of the highest rank, the HDR flag is the most recent one the server gave, and
      `colorQuality` is the colour of the two components; nothing of a session that was active
      before enters. */
  lemma ActiveProfileIsLatestOfHighest(active: Option<Info>, infos: seq<Info>, id: string)
    requires OneSession(infos, id) && (active.Some? ==> active.value.sessionId != id)
    requires forall i | 0 <= i < |infos| :: Tagged(infos[i]) && ServerSourced(infos[i].profile.enableHdr)
    ensures StoreAll(active, infos).Some?
    ensures
      var p := StoreAll(active, infos).value.profile;
      && (exists i: nat :: LatestOfHighest(Depths(infos), i) && p.bitDepth == Depths(infos)[i])
      && (exists i: nat :: LatestOfHighest(Chromas(infos), i) && p.chromaFormat == Chromas(infos)[i])
      && (exists i: nat :: LatestOfHighest(Hdrs(infos), i) && p.enableHdr == Hdrs(infos)[i])
      && p.colorQuality == ProfileColor(p.bitDepth.value, p.chromaFormat.value)
  {
    StoreAllPreserves(active, infos, id);
    PreserveAllFolds(infos, id);
    forall i | 0 <= i < |infos|
      ensures ColorSourced(Depths(infos)[i]) && ColorSourced(Chromas(infos)[i]) && ServerSourced(Hdrs(infos)[i])
    {
      assert Tagged(infos[i]);
    }
    var a := FoldIsLatestOfHighest(Depths(infos));
    var b := FoldIsLatestOfHighest(Chromas(infos));
    var c := FoldIsLatestOfHighest(Hdrs(infos));
  }

  lemma LastOfLonger(a: seq<Info>, rest: seq<Info>)
    requires a != [] && rest != []
    ensures PreserveAll(a + rest) == Preserve(rest[|rest| - 1], PreserveAll(a + rest[..|rest| - 1]))
  {
    hide Preserve;
    assert (a + rest)[..|a + rest| - 1] == a + rest[..|rest| - 1];
  }

  lemma {:induction false} SameStart(a: seq<Info>, b: seq<Info>, rest: seq<Info>)
    requires a != [] && b != [] && PreserveAll(a) == PreserveAll(b)
    ensures PreserveAll(a + rest) == PreserveAll(b + rest)
    decreases |rest|
  {
    hide Preserve, PreserveAll;
    if rest == [] {
      assert a + rest == a && b + rest == b;
    } else {
      SameStart(a, b, rest[..|rest| - 1]);
      LastOfLonger(a, rest);
      LastOfLonger(b, rest);
    }
  }

  lemma CreateCountsTheRequest(active: Option<Info>, request: Info, infos: seq<Info>, id: string)
    requires OneSession([request] + infos, id) && infos != [] && (active.Some? ==> active.value.sessionId != id)
    ensures StoreAll(active, [Preserve(infos[0], request)] + infos[1..]) == Some(PreserveAll([request] + infos))
  {
    hide Preserve, StoreAll, PreserveAll;
    var first, rest := Preserve(infos[0], request), infos[1..];
    FirstMerge(request, infos[0]);
    MergedIsOneSession(request, infos, first, id);
    StoreAllPreserves(active, [first] + rest, id);
    SameStart([first], [request, infos[0]], rest);
    assert [request] + infos == [request, infos[0]] + rest;
  }

  lemma MergedIsOneSession(request: Info, infos: seq<Info>, first: Info, id: string)
    requires OneSession([request] + infos, id) && infos != []
    requires first.sessionId == infos[0].sessionId && first.status == infos[0].status
    ensures OneSession([first] + infos[1..], id)
  {
    var all, merged := [request] + infos, [first] + infos[1..];
    forall i | 0 <= i < |merged|
      ensures merged[i].sessionId == id && merged[i].status != 7
    {
      assert all[i + 1] == infos[i];
    }
  }

  lemma FirstMerge(request: Info, response: Info)
    ensures PreserveAll([request, response]) == Preserve(response, request) == PreserveAll([Preserve(response, request)])
    ensures Preserve(response, request).sessionId == response.sessionId
    ensures Preserve(response, request).status == response.status
  {
    assert [request, response][..1] == [request];
  }

  // The create request says nothing of HDR, so its evidence counts for nothing there.
  lemma {:induction false} FoldSkipsAbsent(request: Field<bool>, fields: seq<Field<bool>>)
    requires request.source.Absent? && fields != []
    ensures Fold([request] + fields) == Fold(fields)
    decreases |fields|
  {
    var n := |fields| - 1;
    var all := [request] + fields;
    assert all[..n + 1] == [request] + fields[..n];
    if n > 0 {
      FoldSkipsAbsent(request, fields[..n]);
    }
  }

  /** A new seat starts from what the create request asked for: over the request followed by the
      responses, bit depth and chroma are again the latest report of the highest rank and
      `colorQuality` is their colour; the HDR flag, of which the request says nothing, is the latest
      report of the highest rank among the responses. */
  lemma CreatedProfileIsLatestOfHighest(active: Option<Info>, request: Info, infos: seq<Info>, id: string)
    requires OneSession([request] + infos, id) && infos != [] && (active.Some? ==> active.value.sessionId != id)
    requires forall i | 0 <= i <= |infos| :: Tagged(([request] + infos)[i])
    requires request.profile.enableHdr.source.Absent?
    requires forall i | 0 <= i < |infos| :: ServerSourced(infos[i].profile.enableHdr)
    ensures
      var stored := StoreAll(active, [Preserve(infos[0], request)] + infos[1..]);
      var all := [request] + infos;
      && stored.Some?
      && (exists i: nat :: LatestOfHighest(Depths(all), i) && stored.value.profile.bitDepth == Depths(all)[i])
      && (exists i: nat :: LatestOfHighest(Chromas(all), i) && stored.value.profile.chromaFormat == Chromas(all)[i])
      && (exists i: nat :: LatestOfHighest(Hdrs(infos), i) && stored.value.profile.enableHdr == Hdrs(infos)[i])
      && stored.value.profile.colorQuality
         == ProfileColor(stored.value.profile.bitDepth.value, stored.value.profile.chromaFormat.value)
  {
    hide Preserve, StoreAll, PreserveAll, Fold;
    var all := [request] + infos;
    CreateCountsTheRequest(active, request, infos, id);
    PreserveAllFolds(all, id);
    ColorsAreRanked(all);
    var a := FoldIsLatestOfHighest(Depths(all));
    var b := FoldIsLatestOfHighest(Chromas(all));
    assert Hdrs(all) == [request.profile.enableHdr] + Hdrs(infos);
    FoldSkipsAbsent(request.profile.enableHdr, Hdrs(infos));
    var c := FoldIsLatestOfHighest(Hdrs(infos));
  }

  lemma ColorsAreRanked(infos: seq<Info>)
    requires forall i | 0 <= i < |infos| :: Tagged(infos[i])
    ensures OneFamily(Depths(infos)) && OneFamily(Chromas(infos))
  {
    forall i | 0 <= i < |infos|
      ensures ColorSourced(Depths(infos)[i]) && ColorSourced(Chromas(infos)[i])
    {
      assert Tagged(infos[i]);
    }
  }

  // ---- The codec ----

  function FoldCodec(fields: seq<Field<Codec>>): Field<Codec>
    requires fields != []
  {
    if |fields| == 1 then fields[0] else MergeCodec(FoldCodec(fields[..|fields| - 1]), fields[|fields| - 1])
  }

  function Codecs(evidence: seq<Info>): seq<Field<Codec>> {
    seq(|evidence|, i requires 0 <= i < |evidence| => evidence[i].profile.codec)
  }

  lemma {:induction false} ActiveCodecFolds(evidence: seq<Info>, id: string)
    requires OneSession(evidence, id)
    ensures PreserveAll(evidence).sessionId == id && PreserveAll(evidence).profile.codec == FoldCodec(Codecs(evidence))
    decreases |evidence|
  {
    var n := |evidence| - 1;
    if n > 0 {
      ActiveCodecFolds(evidence[..n], id);
      assert Codecs(evidence)[..n] == Codecs(evidence[..n]);
    }
  }

  predicate LastServerReport(fields: seq<Field<Codec>>, i: nat) {
    i < |fields| && fields[i].source.Server? && forall j | i < j < |fields| :: fields[j].source in {Unreported, Request}
  }

  /** A codec the server reported survives every later response until the server reports again. */
  lemma {:induction false} ServerCodecSurvives(fields: seq<Field<Codec>>, i: nat)
    requires LastServerReport(fields, i) && fields[i].value.Some?
    ensures FoldCodec(fields) == fields[i]
    decreases |fields|
  {
    var n := |fields| - 1;
    if i < n {
      ServerCodecSurvives(fields[..n], i);
    }
  }

  /** A codec that is shown was reported, and the server has not reported since. */
  lemma {:induction false} ShownCodecWasReported(fields: seq<Field<Codec>>) returns (i: nat)
    requires fields != [] && FoldCodec(fields).value.Some?
    ensures i < |fields| && fields[i] == FoldCodec(fields) && forall j | i < j < |fields| :: !fields[j].source.Server?
    decreases |fields|
  {
    var n := |fields| - 1;
    if n == 0 || FoldCodec(fields) == fields[n] {
      i := n;
    } else {
      i := ShownCodecWasReported(fields[..n]);
    }
  }

  /** The same for whole runs through the active slot. */
  lemma ActiveKeepsServerCodec(active: Option<Info>, infos: seq<Info>, id: string, i: nat)
    requires OneSession(infos, id) && (active.Some? ==> active.value.sessionId != id)
    requires LastServerReport(Codecs(infos), i) && infos[i].profile.codec.value.Some?
    ensures StoreAll(active, infos).Some? && StoreAll(active, infos).value.profile.codec == infos[i].profile.codec
  {
    StoreAllPreserves(active, infos, id);
    ActiveCodecFolds(infos, id);
    ServerCodecSurvives(Codecs(infos), i);
  }
}
