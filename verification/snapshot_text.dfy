/** The whole snapshot file as text: its header and arrays, with every mark between them written out. */
module SnapshotText {
  import opened Texts
  import opened JsonText
  import opened JsonLines
  import opened JsonArrays
  import opened JsonFaked
  import opened SnapshotPrint
  import opened SnapshotDocument
  import opened Snapshot

  function Concat(texts: seq<string>): string {
    if texts == [] then "" else texts[0] + Concat(texts[1..])
  }

  function KeyText(indent: string, key: string): string {
    indent + "\"" + key + "\": "
  }

  /** The lines of the header. */
  function HeaderTexts(h: Header): seq<string> {
    [
      "{\n",
      KeyText("  ", "schema_version") + Decimal(2) + ",\n",
      KeyText("  ", "saved_at") + "\"" + Escape(h.savedAt) + "\",\n",
      KeyText("  ", "metadata") + "{\n",
      KeyText("      ", "cli_endpoint") + "\"" + Escape(h.cliEndpoint) + "\",\n",
      KeyText("      ", "status") + "\"" + Escape(h.status) + "\",\n",
      KeyText("      ", "interface_admin_state_count") + Decimal(h.ifaceCount) + "\n",
      "  },\n"
    ]
  }

  /** The entries of an array in order, a comma and a line end between any two. */
  function EntriesText(objs: seq<seq<Line>>): string {
    if objs == [] then ""
    else "    {\n" + Lines(objs[0]) + "    }" + (if |objs| == 1 then "" else ",\n") + EntriesText(objs[1..])
  }

  function NamedArray(key: string, objs: seq<seq<Line>>): string {
    "  \"" + key + "\": [\n" + EntriesText(objs) + "\n  ]"
  }

  /** The saved file: the header, then the three arrays of the three tables, one after another. */
  lemma RenderedText(s: Setting, t: Tables)
    ensures Render(s, t)
         == Concat(HeaderTexts(HeaderOf(s, |t.ifaces|)))
            + NamedArray("interface_admin_state", IfaceObjects(t.ifaces)) + ",\n"
            + NamedArray("pdp_contexts", PdpObjects(t.pdps, s.clock)) + ",\n"
            + NamedArray("ue_contexts", UeObjects(t.ues, s.clock)) + "\n}\n"
  {
    var ifaces, pdps, ues := IfaceObjects(t.ifaces), PdpObjects(t.pdps, s.clock), UeObjects(t.ues, s.clock);
    var third := ArrayText(UES, ues, CLOSE);
    var second := ArrayText(PDPS, pdps, ",\n" + third);
    HeaderIsPrinted(HeaderOf(s, |t.ifaces|));
    ArrayIsPrinted("ue_contexts", ues, CLOSE);
    ArrayIsPrinted("pdp_contexts", pdps, ",\n" + third);
    ArrayIsPrinted("interface_admin_state", ifaces, ",\n" + second);
    Regrouped(Concat(HeaderTexts(HeaderOf(s, |t.ifaces|))), NamedArray("interface_admin_state", ifaces),
              NamedArray("pdp_contexts", pdps), NamedArray("ue_contexts", ues));
  }

  lemma Regrouped(header: string, a: string, b: string, c: string)
    ensures header + (a + (",\n" + (b + (",\n" + (c + "\n}\n")))))
         == header + a + ",\n" + b + ",\n" + c + "\n}\n"
  {
  }

  lemma HeaderIsPrinted(h: Header)
    ensures Lines(HeaderLines(h)) == Concat(HeaderTexts(h))
  {
    BareRow("  ", "schema_version", Number(2), true);
    TextRow("  ", "saved_at", h.savedAt);
    BareRow("  ", "metadata", Open('{'), false);
    TextRow("      ", "cli_endpoint", h.cliEndpoint);
    TextRow("      ", "status", h.status);
    BareRow("      ", "interface_admin_state_count", Number(h.ifaceCount), false);
    RowsAreLines(HeaderLines(h), HeaderTexts(h));
  }

  lemma TextRow(indent: string, key: string, s: string)
    ensures Row(Field(indent, key, Text(s), true)) == KeyText(indent, key) + "\"" + Escape(s) + "\",\n"
  {
    BareRow(indent, key, Text(s), true);
  }

  lemma BareRow(indent: string, key: string, value: Value, comma: bool)
    ensures Row(Field(indent, key, value, comma))
         == KeyText(indent, key) + ValueText(value) + (if comma then ",\n" else "\n")
  {
    assert indent + ("\"" + key + "\"") + ": " == KeyText(indent, key);
  }

  lemma {:induction false} RowsAreLines(ls: seq<Line>, texts: seq<string>)
    requires |texts| == |ls| && forall i :: 0 <= i < |ls| ==> texts[i] == Row(ls[i])
    ensures Lines(ls) == Concat(texts)
  {
    if ls != [] {
      RowsAreLines(ls[1..], texts[1..]);
    }
  }

  lemma ArrayIsPrinted(key: string, objs: seq<seq<Line>>, rest: string)
    ensures ArrayText(key, objs, rest) == NamedArray(key, objs) + rest
  {
    EntriesArePrinted(objs);
  }

  lemma {:induction false} EntriesArePrinted(objs: seq<seq<Line>>)
    ensures Joined(objs) == EntriesText(objs)
  {
    if |objs| > 1 {
      JoinedTail(objs);
      EntriesArePrinted(objs[1..]);
    }
  }
}
