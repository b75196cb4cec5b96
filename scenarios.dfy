/**
 * Worked examples of `enquire` on one departing service, with the code
 * table {GLQ: Glasgow Queen Street, EDB: Edinburgh}.
 */
module Scenarios {
  import opened Wrappers
  import opened OrderedDicts
  import opened Services
  import opened Formatter
  import opened Text
  import opened Presenter

  function Codes(): map<string, string> {
    map["GLQ" := "Glasgow Queen Street", "EDB" := "Edinburgh"]
  }

  /** The 10:00 departure from Glasgow Queen Street to Edinburgh, platform 1, on time. */
  function TenOclock(): Service {
    Service(Some("1"), None, Some("10:00"), "On time", "EDB", "GLQ")
  }

  function TenOclockEntry(): (string, Fields) {
    ("Departure: 10:00", [("platform", Some("1")), ("expected", Some("On time")),
                          ("destination", Some("EDB")), ("origin", Some("GLQ"))])
  }

  lemma TenOclockEntryOf(s: Service)
    requires s == TenOclock()
    ensures EntryOf(s) == Some(TenOclockEntry())
  {
    assert Truthy(s.departs) && !Truthy(s.arrives);
    assert "Departure: " + "10:00" == "Departure: 10:00";
  }

  lemma FormattedOne(s: Service)
    requires EntryOf(s).Some?
    ensures Formatted([s]) == [EntryOf(s).value]
  {
    assert [s][..0] == [];
    assert Formatted([s]) == Step([], s);
    assert Keys<Fields>([]) == [];
  }

  lemma BlocksOne(source: string, destination: Option<string>, entry: (string, Fields))
    ensures Blocks(source, destination, [entry]) == Block(source, destination, entry)
  {
    assert [entry][..0] == [];
  }

  /**
   * One service with a departure or arrival time that the filter keeps:
   * the header and that service's block.
   */
  lemma EnquirySingle(codes: map<string, string>, s: Service, sc: string, dest: Option<string>)
    requires sc in codes
    requires Truthy(dest) ==> dest.value in codes && s.destination == codes[dest.value]
    requires EntryOf(s).Some?
    ensures Enquiry(codes, [s], sc, dest) ==
      Success([Header(codes[sc])] + Block(codes[sc], DestinationName(codes, dest), EntryOf(s).value))
  {
    var name := DestinationName(codes, dest);
    assert [s][..0] == [];
    assert GetServices([s], name) == [s];
    FormattedOne(s);
    BlocksOne(codes[sc], name, EntryOf(s).value);
  }

  /**
   * Without a destination: the header, then the one entry, keyed by its
   * departure time, with its four fields in order.
   */
  lemma EnquireFromGlasgow(codes: map<string, string>, s: Service)
    requires codes == Codes() && s == TenOclock()
    ensures Enquiry(codes, [s], "GLQ", None) ==
      Success([Header("Glasgow Queen Street")] + Block("Glasgow Queen Street", None, TenOclockEntry()))
  {
    TenOclockEntryOf(s);
    EnquirySingle(codes, s, "GLQ", None);
  }

  /** The same departure, reported with the destination's name instead of its code. */
  function NamedTenOclock(): Service {
    Service(Some("1"), None, Some("10:00"), "On time", "Edinburgh", "GLQ")
  }

  function NamedTenOclockEntry(): (string, Fields) {
    ("Departure: 10:00", [("platform", Some("1")), ("expected", Some("On time")),
                          ("destination", Some("Edinburgh")), ("origin", Some("GLQ"))])
  }

  lemma NamedTenOclockEntryOf(s: Service)
    requires s == NamedTenOclock()
    ensures EntryOf(s) == Some(NamedTenOclockEntry())
  {
    assert Truthy(s.departs) && !Truthy(s.arrives);
    assert "Departure: " + "10:00" == "Departure: 10:00";
  }

  /**
   * A record whose destination field holds the station name is kept by the
   * filter for destination EDB, and its `From:` line names Edinburgh.
   */
  lemma EnquireToEdinburghByName(codes: map<string, string>, s: Service)
    requires codes == Codes() && s == NamedTenOclock()
    ensures Enquiry(codes, [s], "GLQ", Some("EDB")) ==
      Success([Header("Glasgow Queen Street")] + Block("Glasgow Queen Street", Some("Edinburgh"), NamedTenOclockEntry()))
  {
    NamedTenOclockEntryOf(s);
    assert codes["EDB"] == "Edinburgh";
    EnquirySingle(codes, s, "GLQ", Some("EDB"));
  }

  /**
   * With destination EDB the filter compares the records' destination with
   * the station NAME `Edinburgh`, so a record whose destination is the code
   * `EDB` is dropped and nothing is listed.
   */
  lemma EnquireToEdinburghByCode()
    ensures Enquiry(Codes(), [TenOclock()], "GLQ", Some("EDB")) == Success(["No services."])
  {
    EnquiryNoMatch(Codes(), [TenOclock()], "GLQ", Some("EDB"));
  }

  /** A destination code missing from the table raises KeyError. */
  lemma EnquireToUnknown()
    ensures Enquiry(Codes(), [TenOclock()], "GLQ", Some("XYZ")) == Failure(KeyError("XYZ"))
  {
  }
}
