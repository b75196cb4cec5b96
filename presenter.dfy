/**
 * `enquire`: filter and format the services of the source station, then
 * print them.  Printing is modelled by returning the text of every `print`
 * call in order (stdout is each of them followed by a newline); a KeyError
 * from the station-code table is a `Failure`.
 */
module Presenter {
  import opened Wrappers
  import opened OrderedDicts
  import opened Services
  import opened Formatter
  import opened Text

  /** The KeyError raised when a code is missing from the station-code table. */
  datatype LookupError = KeyError(code: string)

  /** How an f-string renders a field value: the string itself, or `None`. */
  function Show(v: Option<string>): string {
    match v
    case Some(s) => s
    case None => "None"
  }

  function Header(source: string): string {
    "Services from " + source + "\n"
  }

  /** The `From:` line of an entry; `destination` is the destination's name when one was asked for. */
  function FromLine(source: string, destination: Option<string>, key: string): string {
    match destination
    case Some(name) => "From: " + source + " To: " + name + " (" + key + ")"
    case None => "From: " + source + " (" + key + ")"
  }

  function FieldLine(field: (string, Option<string>)): string {
    Capitalize(field.0) + ": " + Show(field.1)
  }

  /** One `Key: value` line per field, in the field dict's order. */
  function FieldLines(fields: Fields): (lines: seq<string>)
    ensures |lines| == |fields|
    ensures forall j :: 0 <= j < |fields| ==> lines[j] == FieldLine(fields[j])
  {
    if fields == [] then []
    else FieldLines(fields[..|fields| - 1]) + [FieldLine(fields[|fields| - 1])]
  }

  /** The lines printed for one entry of the info dict. */
  function Block(source: string, destination: Option<string>, entry: (string, Fields)): seq<string> {
    [FromLine(source, destination, entry.0)] + FieldLines(entry.1) + [""]
  }

  /** The lines printed for the entries of `info`, in iteration order. */
  function Blocks(source: string, destination: Option<string>, info: Info): seq<string> {
    if info == [] then []
    else Blocks(source, destination, info[..|info| - 1]) + Block(source, destination, info[|info| - 1])
  }

  /** The destination's name when `dest` is truthy. */
  function DestinationName(codes: map<string, string>, dest: Option<string>): (name: Option<string>)
    requires Truthy(dest) ==> dest.value in codes
    ensures name.Some? <==> Truthy(dest)
    ensures name.Some? ==> name.value == codes[dest.value]
  {
    if Truthy(dest) then Some(codes[dest.value]) else None
  }

  /**
   * What the printing part of `enquire` prints for `info`.  `dest`, when
   * truthy, has already been looked up in `codes` by the time it runs.
   */
  function Presented(codes: map<string, string>, sc: string, dest: Option<string>, info: Info): Result<seq<string>, LookupError>
    requires Truthy(dest) ==> dest.value in codes
  {
    if info == [] then Success(["No services."])
    else if sc !in codes then Failure(KeyError(sc))
    else Success([Header(codes[sc])] + Blocks(codes[sc], DestinationName(codes, dest), info))
  }

  /** One more field line: the inner loop's invariant is kept. */
  lemma FieldLinesStep(prefix: seq<string>, fields: Fields, j: int, lines: seq<string>, line: string)
    requires 0 <= j < |fields|
    requires lines == prefix + FieldLines(fields[..j])
    requires line == FieldLine(fields[j])
    ensures lines + [line] == prefix + FieldLines(fields[..j + 1])
  {
    var done := fields[..j + 1];
    assert done[..j] == fields[..j];
    assert FieldLines(done) == FieldLines(fields[..j]) + [line];
    assert prefix + FieldLines(fields[..j]) + [line] == prefix + (FieldLines(fields[..j]) + [line]);
  }

  /** One more entry's lines: the outer loop's invariant is kept. */
  lemma BlocksStep(source: string, destination: Option<string>, info: Info, i: int,
                   done: seq<string>, from: string, lines: seq<string>)
    requires 0 <= i < |info|
    requires done == [Header(source)] + Blocks(source, destination, info[..i])
    requires from == FromLine(source, destination, info[i].0)
    requires lines == done + [from] + FieldLines(info[i].1)
    ensures lines + [""] == [Header(source)] + Blocks(source, destination, info[..i + 1])
  {
    var blocks := Blocks(source, destination, info[..i]);
    var block := Block(source, destination, info[i]);
    assert info[..i + 1][..i] == info[..i];
    assert Blocks(source, destination, info[..i + 1]) == blocks + block;
    AppendAssociates([Header(source)], blocks, [from], FieldLines(info[i].1), [""]);
  }

  lemma AppendAssociates<T>(a: seq<T>, b: seq<T>, c: seq<T>, d: seq<T>, e: seq<T>)
    ensures a + b + c + d + e == a + (b + (c + d + e))
  {
  }

  /** The inner loop of `enquire`: one `Key: value` line per field, after the lines printed so far. */
  method PrintFields(printed: seq<string>, fields: Fields) returns (lines: seq<string>)
    ensures lines == printed + FieldLines(fields)
  {
    lines := printed;
    var j := 0;
    while j < |fields|
      invariant 0 <= j <= |fields|
      invariant lines == printed + FieldLines(fields[..j])
    {
      var key, value := fields[j].0, fields[j].1;
      var line := Capitalize(key) + ": " + Show(value);
      FieldLinesStep(printed, fields, j, lines, line);
      lines := lines + [line];
      j := j + 1;
    }
    assert fields[..j] == fields;
  }

  /** The `From:` line of one entry, naming the destination only when `dest` is truthy. */
  method PrintFrom(codes: map<string, string>, sc: string, dest: Option<string>, service: string) returns (from: string)
    requires sc in codes
    requires Truthy(dest) ==> dest.value in codes
    ensures from == FromLine(codes[sc], DestinationName(codes, dest), service)
  {
    if Truthy(dest) {
      from := "From: " + codes[sc] + " To: " + codes[dest.value] + " (" + service + ")";
    } else {
      from := "From: " + codes[sc] + " (" + service + ")";
    }
  }

  /** The printing part of `enquire`: the loop over the info dict and, inside it, the loop over each field dict. */
  method Present(codes: map<string, string>, sc: string, dest: Option<string>, info: Info)
    returns (out: Result<seq<string>, LookupError>)
    requires Truthy(dest) ==> dest.value in codes
    ensures out == Presented(codes, sc, dest, info)
  {
    if |info| == 0 {
      return Success(["No services."]);
    }
    if sc !in codes {
      return Failure(KeyError(sc));
    }
    ghost var to := DestinationName(codes, dest);
    var lines := ["Services from " + codes[sc] + "\n"];
    var i := 0;
    while i < |info|
      invariant 0 <= i <= |info|
      invariant lines == [Header(codes[sc])] + Blocks(codes[sc], to, info[..i])
    {
      var service, sInfo := info[i].0, info[i].1;
      var from := PrintFrom(codes, sc, dest, service);
      ghost var done := lines;
      lines := lines + [from];
      lines := PrintFields(lines, sInfo);
      BlocksStep(codes[sc], to, info, i, done, from, lines);
      lines := lines + [""];
      i := i + 1;
    }
    assert info[..i] == info;
    return Success(lines);
  }

  /** Everything `enquire` prints, given the code table and the services the API returned for `sc`. */
  function Enquiry(codes: map<string, string>, services: seq<Service>, sc: string, dest: Option<string>): Result<seq<string>, LookupError>
  {
    if Truthy(dest) && dest.value !in codes then Failure(KeyError(dest.value))
    else Presented(codes, sc, dest, Formatted(GetServices(services, DestinationName(codes, dest))))
  }

  /** `enquire(sc, dest)`, with the code table and the API's services passed in. */
  method Enquire(codes: map<string, string>, services: seq<Service>, sc: string, dest: Option<string>)
    returns (out: Result<seq<string>, LookupError>)
    ensures out == Enquiry(codes, services, sc, dest)
  {
    var info;
    if !Truthy(dest) {
      info := GetInfo(GetServices(services, None));
    } else {
      if dest.value !in codes {
        return Failure(KeyError(dest.value));
      }
      info := GetInfo(GetServices(services, Some(codes[dest.value])));
    }
    out := Present(codes, sc, dest, info);
  }

  /** Where entry `e` starts among the lines printed for the entries: after two lines plus one per field for each entry before it. */
  function Offset(info: Info, e: nat): nat
    requires e <= |info|
  {
    if e == 0 then 0 else Offset(info, e - 1) + |info[e - 1].1| + 2
  }

  lemma {:induction false} OffsetPrefix(info: Info, n: nat, e: nat)
    requires e <= n <= |info|
    ensures Offset(info[..n], e) == Offset(info, e)
  {
    if e > 0 {
      OffsetPrefix(info, n, e - 1);
    }
  }

  lemma {:induction false} BlocksLength(source: string, destination: Option<string>, info: Info)
    ensures |Blocks(source, destination, info)| == Offset(info, |info|)
  {
    if info != [] {
      var n := |info| - 1;
      BlocksLength(source, destination, info[..n]);
      OffsetPrefix(info, n, n);
    }
  }

  lemma {:induction false} OffsetMonotone(info: Info, e: nat, f: nat)
    requires e <= f <= |info|
    ensures Offset(info, e) <= Offset(info, f)
  {
    if e < f {
      OffsetMonotone(info, e, f - 1);
    }
  }

  /** Entry `e` prints exactly its own block (`From:` line, field lines, blank line), between its offset and the next one. */
  lemma {:induction false} BlocksLayout(source: string, destination: Option<string>, info: Info, e: nat)
    requires e < |info|
    ensures Offset(info, e + 1) <= |Blocks(source, destination, info)|
    ensures Blocks(source, destination, info)[Offset(info, e)..Offset(info, e + 1)] == Block(source, destination, info[e])
  {
    var n := |info| - 1;
    var prefix := info[..n];
    var whole := Blocks(source, destination, info);
    var front := Blocks(source, destination, prefix);
    var last := Block(source, destination, info[n]);
    assert whole == front + last;
    BlocksLength(source, destination, prefix);
    OffsetPrefix(info, n, n);
    if e == n {
      LastBlockLayout(whole, front, last, Offset(info, n), Offset(info, n + 1));
    } else {
      BlocksLayout(source, destination, prefix, e);
      OffsetPrefix(info, n, e);
      OffsetPrefix(info, n, e + 1);
      assert prefix[e] == info[e];
      OffsetMonotone(info, e + 1, n);
      EarlierBlockLayout(whole, front, last, Block(source, destination, info[e]), Offset(info, e), Offset(info, e + 1));
    }
  }

  /** The last entry's block is the tail of the lines. */
  lemma LastBlockLayout(whole: seq<string>, front: seq<string>, last: seq<string>, at: nat, end: nat)
    requires whole == front + last
    requires at == |front| && end == at + |last|
    ensures whole[at..end] == last
  {
    assert whole[at..] == last;
  }

  /** Appending the last entry's block leaves the earlier blocks where they were. */
  lemma EarlierBlockLayout(whole: seq<string>, front: seq<string>, last: seq<string>, block: seq<string>, at: nat, end: nat)
    requires whole == front + last
    requires at <= end <= |front| && front[at..end] == block
    ensures end <= |whole| && whole[at..end] == block
  {
    assert forall k :: 0 <= k < end - at ==> whole[at..end][k] == front[at..end][k];
  }

  /** The lines of one entry: its `From:` line, one line per field, a blank line. */
  lemma BlockLines(source: string, destination: Option<string>, entry: (string, Fields))
    ensures |Block(source, destination, entry)| == |entry.1| + 2
    ensures Block(source, destination, entry)[0] == FromLine(source, destination, entry.0)
    ensures forall j :: 0 <= j < |entry.1| ==> Block(source, destination, entry)[1 + j] == FieldLine(entry.1[j])
    ensures Block(source, destination, entry)[|entry.1| + 1] == ""
  {
  }

  /**
   * The first line of entry `e`'s block is its `From:` line, which names the
   * destination station `codes[dest]` exactly when `dest` is truthy.
   */
  lemma PresentedFromLine(codes: map<string, string>, sc: string, dest: Option<string>, info: Info, e: nat)
    requires Truthy(dest) ==> dest.value in codes
    requires sc in codes
    requires e < |info|
    ensures Presented(codes, sc, dest, info).Success?
    ensures 1 + Offset(info, e) < |Presented(codes, sc, dest, info).value|
    ensures Presented(codes, sc, dest, info).value[1 + Offset(info, e)] ==
      if Truthy(dest) then "From: " + codes[sc] + " To: " + codes[dest.value] + " (" + info[e].0 + ")"
      else "From: " + codes[sc] + " (" + info[e].0 + ")"
  {
    PresentedLayout(codes, sc, dest, info, e);
    BlockLines(codes[sc], DestinationName(codes, dest), info[e]);
    var lines := Presented(codes, sc, dest, info).value;
    assert lines[1 + Offset(info, e)] == lines[1 + Offset(info, e)..1 + Offset(info, e + 1)][0];
  }

  /** `No services.` is printed, alone, exactly when the info dict is empty; otherwise only a missing source code fails. */
  lemma PresentedNoServices(codes: map<string, string>, sc: string, dest: Option<string>, info: Info)
    requires Truthy(dest) ==> dest.value in codes
    ensures Presented(codes, sc, dest, info) == Success(["No services."]) <==> info == []
    ensures Presented(codes, sc, dest, info).Failure? <==> info != [] && sc !in codes
    ensures Presented(codes, sc, dest, info).Failure? ==> Presented(codes, sc, dest, info).error == KeyError(sc)
  {
    if info != [] && sc in codes {
      BlocksLayout(codes[sc], DestinationName(codes, dest), info, 0);
    }
  }

  /**
   * A non-empty info dict prints the header and then, for each entry in
   * iteration order, that entry's block (see `BlockLines`), entry `e`'s
   * block starting right after the blocks of the entries before it.
   */
  lemma PresentedLayout(codes: map<string, string>, sc: string, dest: Option<string>, info: Info, e: nat)
    requires Truthy(dest) ==> dest.value in codes
    requires sc in codes
    requires e < |info|
    ensures Presented(codes, sc, dest, info).Success?
    ensures |Presented(codes, sc, dest, info).value| == 1 + Offset(info, |info|)
    ensures Presented(codes, sc, dest, info).value[0] == Header(codes[sc])
    ensures Offset(info, e + 1) <= Offset(info, |info|)
    ensures Presented(codes, sc, dest, info).value[1 + Offset(info, e)..1 + Offset(info, e + 1)] ==
      Block(codes[sc], DestinationName(codes, dest), info[e])
  {
    var to := DestinationName(codes, dest);
    var lines := [Header(codes[sc])] + Blocks(codes[sc], to, info);
    assert Presented(codes, sc, dest, info) == Success(lines);
    BlocksLayout(codes[sc], to, info, e);
    LinesLength(Header(codes[sc]), codes[sc], to, info, lines);
    OffsetMonotone(info, e + 1, |info|);
    LinesSlice(Header(codes[sc]), codes[sc], to, info, e, lines);
  }

  lemma LinesLength(head: string, source: string, to: Option<string>, info: Info, lines: seq<string>)
    requires lines == [head] + Blocks(source, to, info)
    ensures |lines| == 1 + Offset(info, |info|)
  {
    BlocksLength(source, to, info);
  }

  lemma LinesSlice(head: string, source: string, to: Option<string>, info: Info, e: nat, lines: seq<string>)
    requires lines == [head] + Blocks(source, to, info)
    requires e < |info|
    requires |lines| == 1 + Offset(info, |info|)
    requires Offset(info, e + 1) <= Offset(info, |info|)
    ensures lines[1 + Offset(info, e)..1 + Offset(info, e + 1)] == Blocks(source, to, info)[Offset(info, e)..Offset(info, e + 1)]
  {
    var blocks := Blocks(source, to, info);
    var at, end := Offset(info, e), Offset(info, e + 1);
    SliceAfterHeader(lines, head, blocks, blocks[at..end], at, end);
  }

  /** The header shifts every block one line on. */
  lemma SliceAfterHeader<T>(lines: seq<T>, head: T, s: seq<T>, block: seq<T>, i: nat, j: nat)
    requires lines == [head] + s
    requires i <= j <= |s| && s[i..j] == block
    ensures lines[1 + i..1 + j] == block
  {
    assert lines[1..] == s;
  }

  /** `enquire` prints `No services.` exactly when no filtered service has a truthy departure or arrival time. */
  lemma EnquiryNoServices(codes: map<string, string>, services: seq<Service>, sc: string, dest: Option<string>)
    requires Truthy(dest) ==> dest.value in codes
    ensures var filtered := GetServices(services, DestinationName(codes, dest));
      Enquiry(codes, services, sc, dest) == Success(["No services."]) <==>
      forall i :: 0 <= i < |filtered| ==> !Truthy(filtered[i].departs) && !Truthy(filtered[i].arrives)
  {
    var filtered := GetServices(services, DestinationName(codes, dest));
    FormattedEmpty(filtered);
    PresentedNoServices(codes, sc, dest, Formatted(filtered));
  }

  /**
   * The filter is given the destination's station NAME `codes[dest]`: a
   * falsy `dest`, or one whose name is empty, keeps every service; otherwise
   * exactly the services whose `destination` equals that name are formatted,
   * in their original order.
   */
  lemma EnquiryFilters(codes: map<string, string>, services: seq<Service>, sc: string, dest: Option<string>)
    requires Truthy(dest) ==> dest.value in codes
    ensures !Truthy(dest) || codes[dest.value] == "" ==>
      Enquiry(codes, services, sc, dest) == Presented(codes, sc, dest, Formatted(services))
    ensures Truthy(dest) && codes[dest.value] != "" ==>
      exists kept, idx ::
        && PicksOut(kept, services, idx)
        && (forall i :: 0 <= i < |services| ==> (i in idx <==> services[i].destination == codes[dest.value]))
        && Enquiry(codes, services, sc, dest) == Presented(codes, sc, dest, Formatted(kept))
  {
    if Truthy(dest) && codes[dest.value] != "" {
      var name := codes[dest.value];
      var kept := Matching(services, name);
      assert Enquiry(codes, services, sc, dest) == Presented(codes, sc, dest, Formatted(kept));
      MatchingPicksOut(services, name);
      assert PicksOut(kept, services, MatchPositions(services, name));
    } else {
      assert Enquiry(codes, services, sc, dest) == Presented(codes, sc, dest, Formatted(services));
    }
  }

  /** A destination that no service is bound for (by name) prints `No services.`. */
  lemma EnquiryNoMatch(codes: map<string, string>, services: seq<Service>, sc: string, dest: Option<string>)
    requires Truthy(dest) && dest.value in codes && codes[dest.value] != ""
    requires forall i :: 0 <= i < |services| ==> services[i].destination != codes[dest.value]
    ensures Enquiry(codes, services, sc, dest) == Success(["No services."])
  {
    EnquiryNoServices(codes, services, sc, dest);
  }

  /** A truthy destination missing from the code table raises KeyError before anything is printed. */
  lemma EnquiryUnknownDestination(codes: map<string, string>, services: seq<Service>, sc: string, dest: Option<string>)
    requires Truthy(dest) && dest.value !in codes
    ensures Enquiry(codes, services, sc, dest) == Failure(KeyError(dest.value))
  {
  }
}
