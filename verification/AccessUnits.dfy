/** Splitting a byte stream (Annex B of ITU-T H.264 and H.265) into NAL units and packets. */
module AccessUnits {
  import opened Basics

  datatype Nal = Nal(start: nat, payload: nat, end: nat, kind: nat, vcl: bool, key: bool)

  /** A packet is a view of `size` bytes at `offset`. */
  datatype Packet = Packet(offset: nat, size: nat, key: bool)

  /** Length of the start code at a position, or 0. */
  function StartCode(data: seq<Byte>, pos: nat): (r: nat)
    ensures r == 0 || ((r == 3 || r == 4) && pos + r <= |data|)
  {
    if pos + 3 <= |data| && data[pos] == 0 && data[pos + 1] == 0 && data[pos + 2] == 1 then 3
    else if pos + 4 <= |data| && data[pos] == 0 && data[pos + 1] == 0 && data[pos + 2] == 0 && data[pos + 3] == 1 then 4
    else 0
  }

  /** A start code is two or three zero bytes and a one. */
  lemma StartCodeIff(data: seq<Byte>, pos: nat)
    ensures StartCode(data, pos) == 3 <==> pos + 3 <= |data| && data[pos..pos + 3] == [0, 0, 1]
    ensures StartCode(data, pos) == 4 <==> pos + 4 <= |data| && data[pos..pos + 4] == [0, 0, 0, 1]
  {
    if pos + 3 <= |data| { assert data[pos..pos + 3] == [data[pos], data[pos + 1], data[pos + 2]]; }
    if pos + 4 <= |data| { assert data[pos..pos + 4] == [data[pos], data[pos + 1], data[pos + 2], data[pos + 3]]; }
  }

  /** Unit type, and whether it is coded video data or a key picture. */
  function Classify(header: Byte, hevc: bool): (int, bool, bool) {
    if hevc then
      var t := (header / 2) % 64;
      (t, t <= 31, 16 <= t <= 21)
    else
      var t := header % 32;
      (t, 1 <= t <= 5, t == 5)
  }

  /** Header bytes: a zero bit, two bits of reference importance and the type (H.264), or a zero
      bit, the type and the first layer bit (H.265). */
  function Header264(zero: nat, importance: nat, kind: nat): nat {
    128 * zero + 32 * importance + kind
  }

  function Header265(zero: nat, kind: nat, layer: nat): nat {
    128 * zero + 2 * kind + layer
  }

  /** The header byte carries the unit type, whatever its other bits are. */
  ghost predicate Carries(header: Byte, hevc: bool, kind: nat) {
    if hevc then kind < 64 && exists zero: nat, layer: nat :: layer < 2 && header == Header265(zero, kind, layer)
    else kind < 32 && exists zero: nat, importance: nat :: importance < 4 && header == Header264(zero, importance, kind)
  }

  /** Coded video are the types 1 to 5 (H.264) or 0 to 31 (H.265), key pictures 5 or 16 to 21. */
  predicate IsVideo(kind: nat, hevc: bool) {
    if hevc then kind < 32 else kind in {1, 2, 3, 4, 5}
  }

  predicate IsKey(kind: nat, hevc: bool) {
    if hevc then kind in {16, 17, 18, 19, 20, 21} else kind == 5
  }

  lemma Reads264(header: Byte)
    ensures Carries(header, false, header % 32)
  {
    var q := header / 32;
    assert header == Header264(q / 4, q % 4, header % 32);
  }

  lemma Reads265(header: Byte)
    ensures Carries(header, true, header / 2 % 64)
  {
    var q := header / 2;
    assert header == Header265(q / 64, q % 64, header % 2);
  }

  lemma ClassifyReads(header: Byte, hevc: bool)
    ensures var (kind, vcl, key) := Classify(header, hevc);
            kind >= 0 && Carries(header, hevc, kind) && vcl == IsVideo(kind, hevc) && key == IsKey(kind, hevc)
  {
    hide Carries;
    if hevc { Reads265(header); } else { Reads264(header); }
  }

  /** A unit reaches from its start code to the next one, or to three bytes before the end of
      the data: the last three bytes never belong to a unit. */
  ghost predicate IsNal(data: seq<Byte>, hevc: bool, n: Nal) {
    && n.start < n.payload < n.end && n.end + 3 <= |data|
    && StartCode(data, n.start) != 0 && n.payload == n.start + StartCode(data, n.start)
    && (forall q :: n.payload <= q < n.end ==> StartCode(data, q) == 0)
    && (n.end + 3 == |data| || StartCode(data, n.end) != 0)
    && Carries(data[n.payload], hevc, n.kind) && n.vcl == IsVideo(n.kind, hevc) && n.key == IsKey(n.kind, hevc)
  }

  /** A unit opens at `s`: there is a start code that is not the tail of a four-byte one, and
      at least one payload byte before the next start code and the last three bytes. */
  predicate Opens(data: seq<Byte>, s: nat) {
    && s + 3 < |data| && StartCode(data, s) != 0
    && !(s > 0 && StartCode(data, s - 1) == 4)
    && var payload := s + StartCode(data, s);
    payload + 3 < |data| && StartCode(data, payload) == 0
  }

  ghost predicate Starts(nals: seq<Nal>, s: nat) {
    exists i :: 0 <= i < |nals| && nals[i].start == s
  }

  ghost predicate InOrder(nals: seq<Nal>) {
    forall i, j :: 0 <= i < j < |nals| ==> nals[i].end <= nals[j].start
  }

  /** First position from `payload` on with a start code, or where too little data is left. */
  method PayloadEnd(data: seq<Byte>, payload: nat) returns (end: nat)
    requires payload <= |data|
    ensures payload <= end <= |data|
    ensures forall q :: payload <= q < end ==> StartCode(data, q) == 0
    ensures end + 3 >= |data| || StartCode(data, end) != 0
    ensures payload < end ==> end + 3 <= |data|
  {
    end := payload;
    while end + 3 < |data| && StartCode(data, end) == 0
      invariant payload <= end && (end + 3 <= |data| || end == payload)
      invariant forall q :: payload <= q < end ==> StartCode(data, q) == 0
    {
      end := end + 1;
    }
  }

  /** Before `pos` exactly the units that open are listed. */
  ghost predicate ListedBefore(data: seq<Byte>, nals: seq<Nal>, pos: nat) {
    forall s: nat :: s < pos ==> (Starts(nals, s) <==> Opens(data, s))
  }

  /** The scan never stops inside a start code. */
  ghost predicate NotInside(data: seq<Byte>, pos: nat) {
    pos > 0 ==> StartCode(data, pos - 1) != 4
  }

  /** All units of the stream: each is exact, they are ordered and disjoint, and a unit is
      listed exactly where one opens. */
  method FindNals(data: seq<Byte>, hevc: bool) returns (nals: seq<Nal>)
    ensures forall i :: 0 <= i < |nals| ==> IsNal(data, hevc, nals[i])
    ensures InOrder(nals)
    ensures forall s: nat :: Starts(nals, s) <==> Opens(data, s)
  {
    nals := [];
    var pos := 0;
    while pos + 3 < |data|
      invariant Listed(data, hevc, nals, pos) && ListedBefore(data, nals, pos) && NotInside(data, pos)
      decreases |data| - pos
    {
      var prefix := StartCode(data, pos);
      if prefix == 0 {
        NothingOpens(data, nals, hevc, pos);
        pos := pos + 1;
        continue;
      }
      var start, payload := pos, pos + prefix;
      pos := PayloadEnd(data, payload);
      ghost var before := nals;
      if payload < pos {
        ClassifyReads(data[payload], hevc);
        var (kind, vcl, key) := Classify(data[payload], hevc);
        var nal := Nal(start, payload, pos, kind, vcl, key);
        ListedPush(data, hevc, nals, nal);
        nals := nals + [nal];
      }
      UnitScanned(data, hevc, before, nals, start, pos);
    }
    NoneBeyond(data, hevc, nals, pos);
  }

  /** Exact units in order, all ending at or before `pos`. */
  ghost predicate Listed(data: seq<Byte>, hevc: bool, nals: seq<Nal>, pos: nat) {
    (forall i :: 0 <= i < |nals| ==> IsNal(data, hevc, nals[i]) && nals[i].end <= pos) && InOrder(nals)
  }

  lemma ListedPush(data: seq<Byte>, hevc: bool, nals: seq<Nal>, nal: Nal)
    requires Listed(data, hevc, nals, nal.start) && IsNal(data, hevc, nal)
    ensures Listed(data, hevc, nals + [nal], nal.end)
    ensures forall s: nat :: Starts(nals + [nal], s) <==> Starts(nals, s) || s == nal.start
  {
    var all := nals + [nal];
    assert all[|nals|] == nal;
    forall s: nat ensures Starts(all, s) <==> Starts(nals, s) || s == nal.start {
      if Starts(nals, s) {
        var i :| 0 <= i < |nals| && nals[i].start == s;
        assert all[i] == nals[i];
      }
    }
  }

  lemma StartsBelow(data: seq<Byte>, hevc: bool, nals: seq<Nal>, pos: nat, s: nat)
    requires Listed(data, hevc, nals, pos) && Starts(nals, s)
    ensures s < pos
  {
    var i :| 0 <= i < |nals| && nals[i].start == s;
    assert IsNal(data, hevc, nals[i]);
  }

  /** A position without a start code is passed over. */
  lemma NothingOpens(data: seq<Byte>, nals: seq<Nal>, hevc: bool, pos: nat)
    requires Listed(data, hevc, nals, pos) && ListedBefore(data, nals, pos) && StartCode(data, pos) == 0
    ensures Listed(data, hevc, nals, pos + 1) && ListedBefore(data, nals, pos + 1) && NotInside(data, pos + 1)
  {
    if Starts(nals, pos) { StartsBelow(data, hevc, nals, pos, pos); }
  }

  /** No unit opens inside a start code or its payload. */
  lemma InsideUnit(data: seq<Byte>, start: nat, end: nat, s: nat)
    requires StartCode(data, start) != 0 && start < s < end
    requires forall q :: start + StartCode(data, start) <= q < end ==> StartCode(data, q) == 0
    ensures !Opens(data, s)
  {
  }

  /** From a start code to the end of its payload exactly the unit that opens there is added. */
  lemma UnitScanned(data: seq<Byte>, hevc: bool, before: seq<Nal>, nals: seq<Nal>, start: nat, end: nat)
    requires Listed(data, hevc, before, start) && ListedBefore(data, before, start) && NotInside(data, start)
    requires start + 3 < |data| && StartCode(data, start) != 0
    requires var payload := start + StartCode(data, start);
             && payload <= end && (forall q :: payload <= q < end ==> StartCode(data, q) == 0)
             && (end + 3 >= |data| || StartCode(data, end) != 0) && (payload < end ==> end + 3 <= |data|)
             && if payload < end then forall s: nat :: Starts(nals, s) <==> Starts(before, s) || s == start
                else nals == before
    ensures ListedBefore(data, nals, end) && NotInside(data, end)
  {
    var payload := start + StartCode(data, start);
    assert Opens(data, start) <==> payload < end;
    forall s: nat | s < end ensures Starts(nals, s) <==> Opens(data, s) {
      if Starts(before, s) { StartsBelow(data, hevc, before, start, s); }
      if start < s { InsideUnit(data, start, end, s); }
    }
    assert end == payload ==> data[end - 1] == 1;
  }

  /** Where too little data is left no unit opens. */
  lemma NoneBeyond(data: seq<Byte>, hevc: bool, nals: seq<Nal>, pos: nat)
    requires Listed(data, hevc, nals, pos) && ListedBefore(data, nals, pos) && pos + 3 >= |data|
    ensures forall s: nat :: Starts(nals, s) <==> Opens(data, s)
  {
    forall s: nat ensures Starts(nals, s) <==> Opens(data, s) {
      if Starts(nals, s) { StartsBelow(data, hevc, nals, pos, s); }
    }
  }

  // ----- packets

  ghost predicate Ascending(nals: seq<Nal>) {
    forall i, j :: 0 <= i < j < |nals| ==> nals[i].start < nals[j].start
  }

  ghost predicate Contains(p: Packet, n: Nal) {
    p.offset <= n.start < p.offset + p.size
  }

  ghost predicate HasKey(nals: seq<Nal>, p: Packet) {
    exists i :: 0 <= i < |nals| && nals[i].key && Contains(p, nals[i])
  }

  ghost predicate HasVcl(nals: seq<Nal>, p: Packet) {
    exists i :: 0 <= i < |nals| && nals[i].vcl && Contains(p, nals[i])
  }

  /** After a unit of coded video a packet has neither another one nor a delimiter, and the key
      flag says what it contains. */
  ghost predicate IsUnit(nals: seq<Nal>, audType: nat, p: Packet) {
    && (forall i, j :: 0 <= i < j < |nals| && nals[i].vcl && (nals[j].vcl || nals[j].kind == audType)
                       && Contains(p, nals[i]) ==>
          !Contains(p, nals[j]))
    && (p.key <==> HasKey(nals, p))
  }

  /** Consecutive packets without gaps, from `first` up to `last`. */
  ghost predicate Tiles(packets: seq<Packet>, first: nat, last: nat) {
    if packets == [] then first == last
    else
      var n := |packets| - 1;
      && packets[n].size > 0 && packets[n].offset + packets[n].size == last
      && Tiles(packets[..n], first, packets[n].offset)
  }

  /** A packet boundary inside the stream lies where a delimiter or coded video begins, after
      a packet that already has coded video. */
  ghost predicate IsBoundary(nals: seq<Nal>, audType: nat, left: Packet, at: nat) {
    HasVcl(nals, left) && exists i :: 0 <= i < |nals| && nals[i].start == at && (nals[i].vcl || nals[i].kind == audType)
  }

  function Bytes(data: seq<Byte>, packets: seq<Packet>): seq<Byte>
    requires forall i :: 0 <= i < |packets| ==> packets[i].offset + packets[i].size <= |data|
  {
    if packets == [] then []
    else
      var n := |packets| - 1;
      Bytes(data, packets[..n]) + data[packets[n].offset..packets[n].offset + packets[n].size]
  }

  lemma {:induction false} TilesBound(packets: seq<Packet>, first: nat, last: nat)
    requires Tiles(packets, first, last)
    ensures first <= last
    ensures forall i :: 0 <= i < |packets| ==> packets[i].offset + packets[i].size <= last
    decreases |packets|
  {
    if packets != [] {
      var n := |packets| - 1;
      TilesBound(packets[..n], first, packets[n].offset);
      forall i | 0 <= i < n ensures packets[i].offset + packets[i].size <= last {
        assert packets[..n][i] == packets[i];
      }
    }
  }

  /** Packets that tile a range concatenate to exactly the bytes of the range. */
  lemma {:induction false} TilesConcatenate(data: seq<Byte>, packets: seq<Packet>, first: nat, last: nat)
    requires Tiles(packets, first, last) && last <= |data|
    ensures first <= last && forall i :: 0 <= i < |packets| ==> packets[i].offset + packets[i].size <= last
    ensures Bytes(data, packets) == data[first..last]
    decreases |packets|
  {
    TilesBound(packets, first, last);
    if packets != [] {
      var n := |packets| - 1;
      TilesConcatenate(data, packets[..n], first, packets[n].offset);
      assert data[first..last] == data[first..packets[n].offset] + data[packets[n].offset..last];
    }
  }

  /** The units of the packet being collected: those from index `m` on. */
  ghost predicate Collecting(
      nals: seq<Nal>, audType: nat, m: nat, n: nat, currentStart: nat, sawVcl: bool, currentKey: bool)
  {
    && m <= n <= |nals| && m < |nals| && currentStart == nals[m].start
    && (sawVcl <==> exists i :: m <= i < n && nals[i].vcl)
    && (currentKey <==> exists i :: m <= i < n && nals[i].key)
    && (forall i, j :: m <= i < j < n && nals[i].vcl ==> !nals[j].vcl && nals[j].kind != audType)
  }

  lemma ClosePacket(
      nals: seq<Nal>, audType: nat, m: nat, n: nat, currentStart: nat, sawVcl: bool, currentKey: bool, end: nat)
    requires Collecting(nals, audType, m, n, currentStart, sawVcl, currentKey) && m < n
    requires Ascending(nals)
    requires nals[n - 1].start < end && (n < |nals| ==> end == nals[n].start)
    ensures var p := Packet(currentStart, end - currentStart, currentKey);
            IsUnit(nals, audType, p) && p.size > 0 && (sawVcl ==> HasVcl(nals, p))
  {
    assert nals[m].start <= nals[n - 1].start;
    var p := Packet(currentStart, end - currentStart, currentKey);
    forall i | 0 <= i < |nals| ensures Contains(p, nals[i]) <==> m <= i < n {
      if i < m { assert nals[i].start < nals[m].start; }
      if m < i { assert nals[m].start < nals[i].start; }
      if i < n - 1 { assert nals[i].start < nals[n - 1].start; }
      if n < i { assert nals[n].start < nals[i].start; }
    }
    if currentKey {
      var i :| m <= i < n && nals[i].key;
      assert Contains(p, nals[i]);
    }
    if sawVcl {
      var i :| m <= i < n && nals[i].vcl;
      assert Contains(p, nals[i]);
    }
  }

  /** The packets cut so far, all good, up to the start of the one being collected. */
  ghost predicate Cut(nals: seq<Nal>, packets: seq<Packet>, audType: nat, first: nat, currentStart: nat) {
    && Tiles(packets, first, currentStart)
    && (forall i :: 0 <= i < |packets| ==> IsUnit(nals, audType, packets[i]))
    && (forall i :: 0 < i < |packets| ==> IsBoundary(nals, audType, packets[i - 1], packets[i].offset))
    && (packets != [] ==> IsBoundary(nals, audType, packets[|packets| - 1], currentStart))
  }

  lemma CutPush(nals: seq<Nal>, packets: seq<Packet>, audType: nat, first: nat, p: Packet)
    requires Cut(nals, packets, audType, first, p.offset) && IsUnit(nals, audType, p) && p.size > 0
    ensures Tiles(packets + [p], first, p.offset + p.size)
    ensures forall i :: 0 <= i < |packets + [p]| ==> IsUnit(nals, audType, (packets + [p])[i])
    ensures var ps := packets + [p];
            forall i :: 0 < i < |ps| ==> IsBoundary(nals, audType, ps[i - 1], ps[i].offset)
  {
    assert (packets + [p])[..|packets|] == packets;
  }

  lemma CutHere(nals: seq<Nal>, packets: seq<Packet>, audType: nat, m: nat, n: nat, p: Packet, sawVcl: bool)
    requires n < |nals| && Collecting(nals, audType, m, n, p.offset, sawVcl, p.key) && sawVcl && m < n
    requires Ascending(nals)
    requires Cut(nals, packets, audType, nals[0].start, p.offset) && p.offset + p.size == nals[n].start
    requires nals[n].vcl || nals[n].kind == audType
    ensures Cut(nals, packets + [p], audType, nals[0].start, nals[n].start)
  {
    ClosePacket(nals, audType, m, n, p.offset, sawVcl, p.key, nals[n].start);
    CutPush(nals, packets, audType, nals[0].start, p);
    assert IsBoundary(nals, audType, p, nals[n].start);
  }

  lemma CollectNext(nals: seq<Nal>, audType: nat, m: nat, n: nat, currentStart: nat, sawVcl: bool, currentKey: bool)
    requires Collecting(nals, audType, m, n, currentStart, sawVcl, currentKey) && n < |nals|
    requires Ascending(nals)
    ensures !((nals[n].vcl || nals[n].kind == audType) && sawVcl) ==>
              Collecting(nals, audType, m, n + 1, currentStart, sawVcl || nals[n].vcl, currentKey || nals[n].key)
    ensures m < n ==> nals[n].start > currentStart
    ensures m == n ==> !sawVcl
  {
  }

  lemma CollectFirst(nals: seq<Nal>, audType: nat, n: nat)
    requires n < |nals|
    ensures Collecting(nals, audType, n, n + 1, nals[n].start, nals[n].vcl, nals[n].key)
  {
  }

  /** Packets cut so far, and the packet being collected from unit `m` on. */
  datatype Group = Group(packets: seq<Packet>, m: nat, start: nat, sawVcl: bool, key: bool)

  ghost predicate Grouping(nals: seq<Nal>, audType: nat, g: Group, n: nat) {
    && Collecting(nals, audType, g.m, n, g.start, g.sawVcl, g.key) && (g.m < n || n == 0)
    && Cut(nals, g.packets, audType, nals[0].start, g.start)
  }

  /** A new access unit begins at `nal`. */
  predicate Begins(g: Group, nal: Nal, audType: nat) {
    (nal.kind == audType || nal.vcl) && g.sawVcl && nal.start > g.start
  }

  function LastPacket(g: Group, end: nat): Packet
    requires g.start <= end
  {
    Packet(g.start, end - g.start, g.key)
  }

  function Advance(g: Group, nal: Nal, n: nat, audType: nat): Group {
    if Begins(g, nal, audType) then Group(g.packets + [LastPacket(g, nal.start)], n, nal.start, nal.vcl, nal.key)
    else g.(sawVcl := g.sawVcl || nal.vcl, key := g.key || nal.key)
  }

  lemma GroupStep(nals: seq<Nal>, audType: nat, g: Group, n: nat)
    requires Grouping(nals, audType, g, n) && Ascending(nals) && n < |nals|
    ensures Grouping(nals, audType, Advance(g, nals[n], n, audType), n + 1)
  {
    CollectNext(nals, audType, g.m, n, g.start, g.sawVcl, g.key);
    if Begins(g, nals[n], audType) {
      CutHere(nals, g.packets, audType, g.m, n, LastPacket(g, nals[n].start), g.sawVcl);
      CollectFirst(nals, audType, n);
    }
  }

  lemma GroupStart(nals: seq<Nal>, audType: nat)
    requires nals != []
    ensures Grouping(nals, audType, Group([], 0, nals[0].start, false, false), 0)
  {
  }

  /** The last packet ends with the stream. */
  lemma GroupEnd(nals: seq<Nal>, audType: nat, g: Group, size: nat)
    requires Grouping(nals, audType, g, |nals|) && Ascending(nals)
    requires forall i :: 0 <= i < |nals| ==> nals[i].start < size
    ensures g.start < size && Grouped(nals, g.packets + [LastPacket(g, size)], audType, size)
  {
    ClosePacket(nals, audType, g.m, |nals|, g.start, g.sawVcl, g.key, size);
    CutPush(nals, g.packets, audType, nals[0].start, LastPacket(g, size));
  }

  /** Packets that tile the stream from its first unit to its end, split exactly where a new access
      unit begins: no packet goes on past a delimiter or coded video that follows coded video, and
      none ends elsewhere; each has the right key flag. */
  ghost predicate Grouped(nals: seq<Nal>, packets: seq<Packet>, audType: nat, size: nat)
    requires nals != []
  {
    && packets != [] && Tiles(packets, nals[0].start, size)
    && (forall i :: 0 <= i < |packets| ==> IsUnit(nals, audType, packets[i]))
    && (forall i :: 0 < i < |packets| ==> IsBoundary(nals, audType, packets[i - 1], packets[i].offset))
  }

  /** One unit: it closes the packet being collected when a new access unit begins. */
  method TakeNal(packets: seq<Packet>, currentStart: nat, sawVcl: bool, currentKey: bool, nal: Nal, audType: nat,
      ghost m: nat, ghost n: nat)
    returns (packets': seq<Packet>, currentStart': nat, sawVcl': bool, currentKey': bool, ghost m': nat)
    ensures Group(packets', m', currentStart', sawVcl', currentKey') ==
            Advance(Group(packets, m, currentStart, sawVcl, currentKey), nal, n, audType)
    ensures var begins := sawVcl && nal.start > currentStart && (nal.vcl || nal.kind == audType);
            && packets' == packets
                           + (if begins then [Packet(currentStart, nal.start - currentStart, currentKey)] else [])
            && currentStart' == (if begins then nal.start else currentStart)
            && (sawVcl' <==> nal.vcl || (sawVcl && !begins)) && (currentKey' <==> nal.key || (currentKey && !begins))
  {
    packets', currentStart', sawVcl', currentKey', m' := packets, currentStart, sawVcl, currentKey, m;
    var byAud := nal.kind == audType && sawVcl && nal.start > currentStart;
    var byVcl := nal.vcl && sawVcl && nal.start > currentStart;
    if byAud || byVcl {
      packets' := packets + [Packet(currentStart, nal.start - currentStart, currentKey)];
      currentStart', sawVcl', currentKey', m' := nal.start, false, false, n;
    }
    if nal.vcl { sawVcl' := true; }
    if nal.key { currentKey' := true; }
  }

  /** Groups a list of units into packets up to the end of the stream. */
  method GroupNals(nals: seq<Nal>, audType: nat, size: nat) returns (packets: seq<Packet>)
    requires nals != [] && Ascending(nals)
    requires forall i :: 0 <= i < |nals| ==> nals[i].start < size
    ensures Grouped(nals, packets, audType, size)
  {
    hide Grouping, Advance, Grouped;
    packets := [];
    var currentStart, sawVcl, currentKey := nals[0].start, false, false;
    ghost var m := 0;
    GroupStart(nals, audType);
    ghost var g := Group(packets, m, currentStart, sawVcl, currentKey);
    for n := 0 to |nals|
      invariant Grouping(nals, audType, g, n) && g == Group(packets, m, currentStart, sawVcl, currentKey)
    {
      GroupStep(nals, audType, g, n);
      packets, currentStart, sawVcl, currentKey, m :=
          TakeNal(packets, currentStart, sawVcl, currentKey, nals[n], audType, m, n);
      g := Group(packets, m, currentStart, sawVcl, currentKey);
    }
    GroupEnd(nals, audType, g, size);
    packets := packets + [Packet(currentStart, size - currentStart, currentKey)];
  }

  /** Access units: the packets tile the stream from its first listed unit to its end, are split
      exactly where a new access unit begins, and carry the right key flag. */
  method MakeAccessUnits(data: seq<Byte>, hevc: bool) returns (packets: seq<Packet>, ghost nals: seq<Nal>)
    ensures forall i :: 0 <= i < |nals| ==> IsNal(data, hevc, nals[i])
    ensures InOrder(nals) && forall s: nat :: Starts(nals, s) <==> Opens(data, s)
    ensures nals == [] <==> packets == []
    ensures nals != [] ==> Grouped(nals, packets, if hevc then 35 else 9, |data|)
  {
    packets := [];
    var listed := FindNals(data, hevc);
    nals := listed;
    if listed == [] { return; }
    StartsIncrease(data, hevc, listed);
    packets := GroupNals(listed, if hevc then 35 else 9, |data|);
  }

  lemma StartsIncrease(data: seq<Byte>, hevc: bool, nals: seq<Nal>)
    requires InOrder(nals) && forall i :: 0 <= i < |nals| ==> IsNal(data, hevc, nals[i])
    ensures Ascending(nals)
    ensures forall i :: 0 <= i < |nals| ==> nals[i].start < |data|
  {
    forall i | 0 <= i < |nals| ensures nals[i].start < nals[i].end && nals[i].start < |data| {
      assert IsNal(data, hevc, nals[i]);
    }
  }

  /** Chunks of a fixed size tile the whole data. */
  method MakeChunkPackets(data: seq<Byte>, chunkBytes: nat) returns (packets: seq<Packet>)
    requires chunkBytes > 0
    ensures Tiles(packets, 0, |data|)
    ensures forall i :: 0 <= i < |packets| ==> packets[i].size <= chunkBytes && !packets[i].key
    ensures forall i :: 0 <= i < |packets| - 1 ==> packets[i].size == chunkBytes
  {
    packets := [];
    var offset := 0;
    while offset < |data|
      invariant Tiles(packets, 0, if offset < |data| then offset else |data|)
      invariant forall i :: 0 <= i < |packets| ==> packets[i].size <= chunkBytes && !packets[i].key
      invariant forall i :: 0 <= i < |packets| ==>
                packets[i].size == chunkBytes || (i == |packets| - 1 && offset >= |data|)
      decreases |data| - offset
    {
      var size := if chunkBytes < |data| - offset then chunkBytes else |data| - offset;
      packets := packets + [Packet(offset, size, false)];
      assert packets[..|packets| - 1] + [packets[|packets| - 1]] == packets;
      offset := offset + chunkBytes;
    }
  }
}
