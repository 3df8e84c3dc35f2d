/** The records the telemetry loaders keep between tables, and the packed
    (apid, type, subtype) key that groups telemetry packets. */
module MonitoringData {
  import opened Wrappers
  import opened Text
  import opened JavaInt
  import opened Mdb

  /** A PCF row: one monitoring parameter. Absent optional columns are `None`. */
  datatype PcfRecord = PcfRecord(
    name: string,
    descr: string,
    ptc: int,
    pfc: int,
    width: int,
    related: Option<string>,
    categ: string,
    natur: Option<string>,
    curtx: Option<string>,
    inter: Option<string>,
    uscon: bool,
    vplb: int,
    pid: int,
    unit: Option<string>,
    parval: Option<string>)
  {
    /** `isSynthetic`: a dynamic OL parameter. */
    predicate IsSynthetic() {
      natur == Some("D")
    }
  }

  /** A PID row: one telemetry packet structure. */
  datatype PidRecord = PidRecord(
    ptype: int,
    stype: int,
    apid: int,
    pi1: int,
    pi2: int,
    spid: int,
    dfhsize: int)

  /** A PIC row: how to tell apart packets sharing (apid, type, subtype). */
  datatype PicRecord = PicRecord(
    ptype: int,
    stype: int,
    apid: int,
    pi1Offset: int,
    pi1Width: int,
    pi2Offset: int,
    pi2Width: int)
  {
    function ToString(): string {
      "PicRecord [type=" + IntToString(ptype) + ", stype=" + IntToString(stype) + ", apid=" + IntToString(apid)
        + ", pi1Offset=" + IntToString(pi1Offset) + ", pi1Width=" + IntToString(pi1Width)
        + ", pi2Offset=" + IntToString(pi2Offset) + ", pi2Width=" + IntToString(pi2Width) + "]"
    }
  }

  datatype TpcfRecord = TpcfRecord(name: Option<string>, size: int)

  /** A parameter of PTC 11 whose real identity is given at run time by the
      value of `refPname`. */
  datatype DeducedParameter = DeducedParameter(pname: string, refPname: string)

  datatype PrfRecord = PrfRecord(
    mins: seq<Option<string>>,
    maxs: seq<Option<string>>,
    descr: Option<string>,
    inter: Option<string>,
    dspfmt: Option<string>,
    radix: Option<string>)
  {
    /** `addMinMax`: the two lists grow together. */
    function AddMinMax(min: Option<string>, max: Option<string>): (r: PrfRecord)
      ensures |r.mins| == |mins| + 1 && |r.maxs| == |maxs| + 1
      ensures r.mins[..|mins|] == mins && r.maxs[..|maxs|] == maxs
      ensures r.mins[|mins|] == min && r.maxs[|maxs|] == max
      ensures r.descr == descr && r.inter == inter && r.dspfmt == dspfmt && r.radix == radix
    {
      this.(mins := mins + [min], maxs := maxs + [max])
    }
  }

  /** An OCP row: one limit or status check of a parameter. */
  datatype OcpRecord = OcpRecord(
    pos: int,
    otype: Option<string>,
    lvalu: Option<string>,
    hvalu: Option<string>,
    rlchk: Option<string>,
    valpar: int)

  datatype CafRecord = CafRecord(engfmt: string, rawfmt: string, radix: string)

  datatype CcaRecord = CcaRecord(numbr: string, engfmt: string, rawfmt: string, radix: string, splines: seq<SplinePoint>)

  /** A CUR row: calibration `select` applies when `rlchk` has raw value `valpar`. */
  datatype CurRecord = CurRecord(pos: int, rlchk: string, valpar: int, select: string)

  /** A VPD row: one slot of a variable packet. */
  datatype VpdRecord = VpdRecord(
    tpsd: int,
    pos: int,
    name: string,
    grpSize: int,
    fixRep: int,
    choice: string,
    offset: int)

  // ---------------------------------------------------------------------------
  // Packed keys

  /** `PidRecord.getApidTypeSubtype`: `(apid << 16) | (type << 8) | stype` on Java ints. */
  function ApidTypeSubtype(p: PidRecord): int {
    Or(Or(Shl(p.apid, 16), Shl(p.ptype, 8)), p.stype)
  }

  /** `PicRecord.getTypeSubtype`: `(type << 8) | stype` on Java ints. */
  function TypeSubtype(p: PicRecord): int {
    Or(Shl(p.ptype, 8), p.stype)
  }

  /** An apid that fits in 16 bits and a type and subtype that fit in one byte. */
  predicate InKeyRange(apid: int, ptype: int, stype: int) {
    0 <= apid < 65536 && 0 <= ptype < 256 && 0 <= stype < 256
  }

  /** `x << 16` leaves the low 16 bits clear. */
  lemma Shl16Multiple(x: int)
    ensures Shl(x, 16) % 65536 == 0
  {
    Pow2Facts();
    var v := x * 65536;
    var m := (v + TWO_31) / TWO_32;
    assert Shl(x, 16) == v - TWO_32 * m;
    assert Shl(x, 16) == 65536 * (x - 65536 * m);
    MulModZero(65536, x - 65536 * m);
  }

  /** `apid << 16` for a 16-bit apid: the sign bit is set from 32768 up. */
  lemma ShlApid(a: int)
    requires 0 <= a < 65536
    ensures Shl(a, 16) == a * 65536 - (if a >= 32768 then TWO_32 else 0)
  {
    Pow2Facts();
  }

  lemma OrTypeByte(a: int, t: int)
    requires 0 <= a < 65536 && 0 <= t < 256
    ensures Or(Shl(a, 16), Shl(t, 8)) == Shl(a, 16) + t * 256
  {
    Pow2Facts();
    assert Shl(t, 8) == t * 256;
    Shl16Multiple(a);
    OrDisjoint(Shl(a, 16), t * 256, 16);
  }

  lemma OrSubtypeByte(x: int, t: int, s: int)
    requires x % 65536 == 0 && 0 <= t < 256 && 0 <= s < 256
    ensures Or(x + t * 256, s) == x + t * 256 + s
  {
    Pow2Facts();
    var q := x / 65536;
    assert x + t * 256 == 256 * (q * 256 + t);
    MulModZero(256, q * 256 + t);
    OrDisjoint(x + t * 256, s, 8);
  }

  /** In range, the packed key is the 32-bit wrap of
      `apid * 65536 + type * 256 + stype`: the or's never overlap. */
  lemma KeyValue(p: PidRecord)
    requires InKeyRange(p.apid, p.ptype, p.stype)
    ensures ApidTypeSubtype(p) == Wrap32(p.apid * 65536 + p.ptype * 256 + p.stype)
  {
    ShlApid(p.apid);
    OrTypeByte(p.apid, p.ptype);
    var x := Shl(p.apid, 16);
    Shl16Multiple(p.apid);
    OrSubtypeByte(x, p.ptype, p.stype);
    var v := p.apid * 65536 + p.ptype * 256 + p.stype;
    if p.apid >= 32768 {
      Wrap32Shift(v - TWO_32);
    }
  }

  /** The decode at TmMibLoader.java:1057-1059, as written: `type = (k >> 8) &
      0xFF`, `stype = k & 0xFF`, `apid = k >> 16` (arithmetic shift). */
  function DecodeAsWritten(k: int): (int, int, int) {
    (Shr(k, 16), LowBits(Shr(k, 8), 8), LowBits(k, 8))
  }

  /** The decode with the apid masked to 16 bits: `apid = (k >> 16) & 0xFFFF`. */
  function DecodeKey(k: int): (r: (int, int, int))
    ensures InKeyRange(r.0, r.1, r.2)
  {
    Pow2Facts();
    (LowBits(Shr(k, 16), 16), LowBits(Shr(k, 8), 8), LowBits(k, 8))
  }

  /** The three fields of `c * 65536 + t * 256 + s`, for any `c`. */
  lemma DecodeExact(c: int, t: int, s: int)
    requires 0 <= t < 256 && 0 <= s < 256
    ensures (c * 65536 + t * 256 + s) / 65536 == c
    ensures ((c * 65536 + t * 256 + s) / 256) % 256 == t
    ensures (c * 65536 + t * 256 + s) % 256 == s
  {
    var k := c * 65536 + t * 256 + s;
    var h := c * 256 + t;
    assert k == h * 256 + s;
    assert k / 256 == h;
    assert h % 256 == t;
  }

  /** The packed key in range, as the integer it denotes. */
  lemma KeyExact(p: PidRecord)
    requires InKeyRange(p.apid, p.ptype, p.stype)
    ensures ApidTypeSubtype(p) == (if p.apid >= 32768 then p.apid - 65536 else p.apid) * 65536 + p.ptype * 256 + p.stype
  {
    KeyValue(p);
    var v := p.apid * 65536 + p.ptype * 256 + p.stype;
    if p.apid >= 32768 {
      assert TWO_31 <= v < TWO_32;
      assert Wrap32(v) == v - TWO_32;
    } else {
      assert 0 <= v < TWO_31;
    }
  }

  /** The decode as written, in terms of `/` and `%` by constants. */
  lemma DecodeAsWrittenValue(k: int)
    ensures DecodeAsWritten(k) == (k / 65536, (k / 256) % 256, k % 256)
  {
    Pow2Facts();
  }

  /** For apids below 32768 the decode as written recovers the triple. */
  lemma DecodeAsWrittenRoundTrip(p: PidRecord)
    requires InKeyRange(p.apid, p.ptype, p.stype) && p.apid < 32768
    ensures DecodeAsWritten(ApidTypeSubtype(p)) == (p.apid, p.ptype, p.stype)
  {
    KeyExact(p);
    DecodeAsWrittenValue(ApidTypeSubtype(p));
    DecodeExact(p.apid, p.ptype, p.stype);
  }

  /** For apids from 32768 to 65535 the key is negative and the decode as
      written yields `apid - 65536`: a container named after a negative apid
      restricted on that negative value. */
  lemma DecodeAsWrittenHighApid(p: PidRecord)
    requires InKeyRange(p.apid, p.ptype, p.stype) && p.apid >= 32768
    ensures ApidTypeSubtype(p) < 0
    ensures DecodeAsWritten(ApidTypeSubtype(p)) == (p.apid - 65536, p.ptype, p.stype)
  {
    KeyExact(p);
    DecodeAsWrittenValue(ApidTypeSubtype(p));
    DecodeExact(p.apid - 65536, p.ptype, p.stype);
  }

  lemma DecodeKeyValue(k: int)
    ensures DecodeKey(k) == ((k / 65536) % 65536, (k / 256) % 256, k % 256)
  {
    Pow2Facts();
  }

  /** The masked decode recovers every triple in range. */
  lemma DecodeKeyRoundTrip(p: PidRecord)
    requires InKeyRange(p.apid, p.ptype, p.stype)
    ensures DecodeKey(ApidTypeSubtype(p)) == (p.apid, p.ptype, p.stype)
  {
    var k := ApidTypeSubtype(p);
    var hi := if p.apid >= 32768 then p.apid - 65536 else p.apid;
    KeyExact(p);
    DecodeKeyValue(k);
    DecodeExact(hi, p.ptype, p.stype);
    assert hi % 65536 == p.apid;
  }

  /** Packets with different triples in range never share a key. */
  lemma KeyInjective(p: PidRecord, q: PidRecord)
    requires InKeyRange(p.apid, p.ptype, p.stype) && InKeyRange(q.apid, q.ptype, q.stype)
    requires ApidTypeSubtype(p) == ApidTypeSubtype(q)
    ensures p.apid == q.apid && p.ptype == q.ptype && p.stype == q.stype
  {
    DecodeKeyRoundTrip(p);
    DecodeKeyRoundTrip(q);
  }

  /** In range the PIC key is `type * 256 + stype`. */
  lemma TypeSubtypeValue(p: PicRecord)
    requires 0 <= p.ptype < 256 && 0 <= p.stype < 256
    ensures TypeSubtype(p) == p.ptype * 256 + p.stype
  {
    Pow2Facts();
    assert Shl(p.ptype, 8) == p.ptype * 256;
    assert (p.ptype * 256) % Pow2(8) == 0 by { MulModZero(256, p.ptype); }
    OrDisjoint(p.ptype * 256, p.stype, 8);
  }
}
