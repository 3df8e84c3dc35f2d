/** The absolute-time decoder an algorithm attaches to a PTC 9 parameter:
    its constructor checks the (ptc, pfc) pair of its configuration and picks
    the CUC preamble field. Decoding itself is left to the host. */
module TimeDecoder {
  import opened Wrappers
  import opened Text
  import opened MibLoaderBits

  /** A CUC decoder configured with a preamble field; -1 means the preamble
      is read from the data. */
  datatype CucDecoder = CucDecoder(pfield: int)

  function NotSupported(pfc: int): string {
    "pfc " + IntToString(pfc) + " not supported"
  }

  /** The PFCs the decoder can handle: 0 (explicit preamble) and 2 to 29. */
  predicate SupportedPfc(pfc: int) {
    pfc == 0 || 2 <= pfc < 30
  }

  /** The constructor: both keys must be present, the PTC must be 9 and the
      PFC supported; a failure is the processing exception's message. */
  function NewTimeDecoder(arg: map<string, int>): (r: Result<CucDecoder, string>)
    ensures r.Ok? <==> "ptc" in arg && "pfc" in arg && arg["ptc"] == 9 && SupportedPfc(arg["pfc"])
    ensures r.Ok? ==> r.value.pfield == (if arg["pfc"] == 0 then -1 else arg["pfc"] + 29)
    ensures "ptc" !in arg || "pfc" !in arg ==>
      r == Err("ptc or pfc not specified (please use a map {ptc: x, pfc: y}")
    ensures "ptc" in arg && "pfc" in arg && arg["ptc"] != 9 ==>
      r == Err("Invalid ptc " + IntToString(arg["ptc"]) + " specified; should be 9")
    ensures "ptc" in arg && "pfc" in arg && arg["ptc"] == 9 && !SupportedPfc(arg["pfc"]) ==>
      r == Err(NotSupported(arg["pfc"]))
  {
    if "ptc" !in arg || "pfc" !in arg then
      Err("ptc or pfc not specified (please use a map {ptc: x, pfc: y}")
    else
      var ptc := arg["ptc"];
      var pfc := arg["pfc"];
      if ptc != 9 then Err("Invalid ptc " + IntToString(ptc) + " specified; should be 9")
      else if pfc == 0 then Ok(CucDecoder(-1))
      else if pfc < 2 then Err(NotSupported(pfc))
      else if pfc < 30 then Ok(CucDecoder(pfc + 29))
      else Err(NotSupported(pfc))
  }

  /** Distinct PFCs give distinct decoders: the preamble field identifies the
      PFC it came from. */
  lemma PfieldInjective(a: map<string, int>, b: map<string, int>)
    requires NewTimeDecoder(a).Ok? && NewTimeDecoder(b).Ok?
    requires NewTimeDecoder(a) == NewTimeDecoder(b)
    ensures a["pfc"] == b["pfc"]
  {
  }

  /** The PTC 9 encoding names this decoder with its own (ptc, pfc): of the
      PFCs the encoding resolver accepts, the decoder rejects exactly 1 and
      30, so such parameters load and then fail when the decoder is built. */
  lemma EncodedTimesDecodable(pfc: int, vplb: int)
    requires GetDataEncoding(None, 9, pfc, vplb).Ok?
    ensures NewTimeDecoder(map["ptc" := 9, "pfc" := pfc]).Ok? <==> pfc != 1 && pfc != 30
  {
  }
}
