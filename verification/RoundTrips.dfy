/** A file downloaded in one run and uploaded in another, which need not be of the same server. */
module RoundTrips {
  import opened Base
  import opened Netascii
  import GetProtocol
  import PutProtocol

  /** There and back, end to end: what a client has received when its download is done, it uploads. When
      the upload is done too, and did not decode to nothing, the file is the first one exactly when
      no LF went out as text and came back as bytes, and no CR came back as text. In one and the same
      mode: when the mode is octet or the file has no CR. */
  lemma RoundTrip(g: GetProtocol.Get, gets: seq<GetProtocol.Sys>, getActs: seq<GetProtocol.Act>,
                  p: PutProtocol.Put, puts: seq<PutProtocol.Sys>, putActs: seq<PutProtocol.Act>)
    requires GetProtocol.Run(g, gets, getActs) && gets[|getActs|].done
    requires GetProtocol.NothingLeftBehind(g, gets, getActs)
    requires GetProtocol.Short(g) || GetProtocol.NoForeignReplies(g, gets, getActs)
    requires PutProtocol.Run(p, puts, putActs) && puts[|putActs|].done && PutProtocol.MayAlwaysCreate(p, puts, putActs)
    requires p.wire == gets[|getActs|].got && p.Plain() != []
    ensures var files := puts[|putActs|].srv.ds.files;
            && p.Path() in files
            && (files[p.Path()] == g.file <==>
                  && (g.req.mode == NetasciiMode && p.req.mode == OctetMode ==> LF !in g.file)
                  && (p.req.mode == NetasciiMode ==> CR !in g.file))
  {
    hide GetProtocol.Run, GetProtocol.NothingLeftBehind, GetProtocol.NoForeignReplies;
    hide PutProtocol.Run, PutProtocol.MayAlwaysCreate, Wire, Unwire;
    if GetProtocol.Short(g) {
      GetProtocol.GetSafeShort(g, gets, getActs);
    } else {
      GetProtocol.GetSafe(g, gets, getActs);
    }
    PutProtocol.PutSafe(p, puts, putActs);
    RoundTripIff(g.req.mode, p.req.mode, g.file);
  }
}
