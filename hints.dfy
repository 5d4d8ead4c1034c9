/** The section hints (`write_aliases_and_section_hints`, second half,
    ingest_manpages.py:826-832): the table of canonical section names with
    their synonyms, and its inversion from synonym to canonical name. */
module SectionHints {
  import opened Common

  /** An ordered dictionary from canonical name to synonyms, as its items. */
  type SynonymTable = seq<(string, seq<string>)>

  /** `SECTION_SYNONYMS` (ingest_manpages.py:75-100). */
  const SectionSynonyms: SynonymTable := [
    ("NAME", ["TITLE"]),
    ("SYNOPSIS", ["USAGE", "INTERFACE", "PROTOTYPE"]),
    ("DESCRIPTION", ["DETAILS", "OVERVIEW"]),
    ("OPTIONS", ["ARGUMENTS", "FLAGS", "PARAMETERS"]),
    ("RETURN VALUE", ["RETURNS"]),
    ("ERRORS", ["DIAGNOSTICS", "ERRNO"]),
    ("NOTES", ["NOTE"]),
    ("EXAMPLES", ["EXAMPLE"]),
    ("SEE ALSO", ["SEEALSO", "RELATED"]),
    ("STANDARDS", ["CONFORMING TO", "CONFORMANCE"]),
    ("BUGS", ["LIMITATIONS", "ISSUES"]),
    ("ENVIRONMENT", ["ENV", "ENV VARS", "ENVIRONMENT VARIABLES"]),
    ("FILES", ["FILE"]),
    ("VERSIONS", ["VERSION", "HISTORY"]),
    ("ATTRIBUTES", []),
    ("COLOPHON", []),
    ("CAVEATS", []),
    ("DIAGNOSTICS", []),
    ("HISTORY", []),
    ("COMPATIBILITY", []),
    ("AVAILABILITY", []),
    ("AUTHOR", ["AUTHORS", "MAINTAINER"]),
    ("COPYRIGHT", ["LICENSE"]),
    ("EXIT STATUS", ["EXITSTATUS"])
  ]

  /** The inner loop: each synonym of one entry maps to its canonical name. */
  function AddSynonyms(m: map<string, string>, canon: string, syns: seq<string>): map<string, string> {
    if syns == [] then m else AddSynonyms(m, canon, syns[..|syns| - 1])[syns[|syns| - 1] := canon]
  }

  /** `syn_to_canon`, built entry by entry; a later entry overwrites. */
  function Invert(table: SynonymTable): map<string, string> {
    if table == [] then map[]
    else
      var last := table[|table| - 1];
      AddSynonyms(Invert(table[..|table| - 1]), last.0, last.1)
  }

  /** The two nested loops. */
  method InvertSynonyms(table: SynonymTable) returns (synToCanon: map<string, string>)
    ensures synToCanon == Invert(table)
  {
    synToCanon := map[];
    var i := 0;
    while i < |table|
      invariant i <= |table|
      invariant synToCanon == Invert(table[..i])
    {
      var canon := table[i].0;
      var syns := table[i].1;
      var j := 0;
      ghost var before := synToCanon;
      while j < |syns|
        invariant j <= |syns|
        invariant synToCanon == AddSynonyms(before, canon, syns[..j])
      {
        TakeOneMore(syns, j);
        synToCanon := synToCanon[syns[j] := canon];
        j := j + 1;
      }
      TakeAll(syns, j);
      TakeOneMore(table, i);
      i := i + 1;
    }
    TakeAll(table, i);
  }

  /** One entry's synonyms map to its name; other keys keep their values. */
  lemma {:induction false} AddSynonymsEffect(m: map<string, string>, canon: string, syns: seq<string>, s: string)
    ensures s in syns ==> s in AddSynonyms(m, canon, syns) && AddSynonyms(m, canon, syns)[s] == canon
    ensures s !in syns ==> (s in AddSynonyms(m, canon, syns) <==> s in m)
    ensures s !in syns && s in m ==> AddSynonyms(m, canon, syns)[s] == m[s]
  {
    if syns != [] {
      var init := syns[..|syns| - 1];
      AddSynonymsEffect(m, canon, init, s);
      InitLast(syns);
      assert s in syns <==> s in init || s == syns[|syns| - 1];
    }
  }

  /** Where `s` is listed: the index of the last entry listing it. */
  function LastListing(table: SynonymTable, s: string): (r: Option<nat>)
    ensures r.Some? ==> r.value < |table| && s in table[r.value].1
    ensures r.Some? ==> forall k :: r.value < k < |table| ==> s !in table[k].1
    ensures r.None? ==> forall k :: 0 <= k < |table| ==> s !in table[k].1
  {
    if table == [] then None
    else if s in table[|table| - 1].1 then Some(|table| - 1)
    else
      var r := LastListing(table[..|table| - 1], s);
      assert forall k :: 0 <= k < |table| - 1 ==> table[..|table| - 1][k] == table[k];
      r
  }

  /** A synonym maps to the name of the last entry that lists it. */
  lemma {:induction false} InvertLastWriter(table: SynonymTable, s: string)
    ensures s in Invert(table) <==> LastListing(table, s).Some?
    ensures s in Invert(table) ==> Invert(table)[s] == table[LastListing(table, s).value].0
  {
    if table != [] {
      var n := |table| - 1;
      AddSynonymsEffect(Invert(table[..n]), table[n].0, table[n].1, s);
      InvertLastWriter(table[..n], s);
    }
  }

  /** No synonym is listed under two entries. */
  predicate UniqueSynonyms(table: SynonymTable) {
    forall i, k :: 0 <= i < k < |table| ==> forall s :: s in table[i].1 ==> s !in table[k].1
  }

  /** With every synonym under one entry, `syn_to_canon[s] == c` exactly when
      `s` is a synonym listed under `c`. */
  lemma InvertIff(table: SynonymTable, s: string, c: string)
    requires UniqueSynonyms(table)
    requires forall i, k :: 0 <= i < k < |table| ==> table[i].0 != table[k].0
    ensures (s in Invert(table) && Invert(table)[s] == c)
        <==> exists i :: 0 <= i < |table| && table[i].0 == c && s in table[i].1
  {
    InvertLastWriter(table, s);
    if exists i :: 0 <= i < |table| && table[i].0 == c && s in table[i].1 {
      var i :| 0 <= i < |table| && table[i].0 == c && s in table[i].1;
      var r := LastListing(table, s);
      assert r.Some?;
      if r.value != i {
        assert s in table[r.value].1;
      }
    }
  }
  // The synonyms of one slice of `SECTION_SYNONYMS` appear under no later
  // entry; the table is checked slice by slice to keep each proof small.

  lemma EntriesDisjoint0()
    ensures forall i, k :: 0 <= i < 2 && i < k < |SectionSynonyms| ==>
      forall s :: s in SectionSynonyms[i].1 ==> s !in SectionSynonyms[k].1
  {
  }

  lemma EntriesDisjoint2()
    ensures forall i, k :: 2 <= i < 4 && i < k < |SectionSynonyms| ==>
      forall s :: s in SectionSynonyms[i].1 ==> s !in SectionSynonyms[k].1
  {
  }

  lemma EntriesDisjoint4()
    ensures forall i, k :: 4 <= i < 8 && i < k < |SectionSynonyms| ==>
      forall s :: s in SectionSynonyms[i].1 ==> s !in SectionSynonyms[k].1
  {
  }

  lemma EntriesDisjoint8()
    ensures forall i, k :: 8 <= i < 11 && i < k < |SectionSynonyms| ==>
      forall s :: s in SectionSynonyms[i].1 ==> s !in SectionSynonyms[k].1
  {
  }

  lemma EntriesDisjoint11()
    ensures forall i, k :: 11 <= i < 14 && i < k < |SectionSynonyms| ==>
      forall s :: s in SectionSynonyms[i].1 ==> s !in SectionSynonyms[k].1
  {
  }

  lemma EntriesDisjoint14()
    ensures forall i, k :: 14 <= i < |SectionSynonyms| && i < k < |SectionSynonyms| ==>
      forall s :: s in SectionSynonyms[i].1 ==> s !in SectionSynonyms[k].1
  {
  }

  /** `SECTION_SYNONYMS` lists every synonym under one entry only. */
  lemma SectionSynonymsUnique()
    ensures UniqueSynonyms(SectionSynonyms)
  {
    EntriesDisjoint0();
    EntriesDisjoint2();
    EntriesDisjoint4();
    EntriesDisjoint8();
    EntriesDisjoint11();
    EntriesDisjoint14();
  }

  /** `SECTION_SYNONYMS` has no canonical name twice. */
  lemma SectionNamesDistinct()
    ensures forall i, k :: 0 <= i < k < |SectionSynonyms| ==> SectionSynonyms[i].0 != SectionSynonyms[k].0
  {
  }

  /** The shipped `section_hints.json`: `syn_to_canon[s] == c` exactly when
      `s` is a synonym listed under `c` in `SECTION_SYNONYMS`. */
  lemma SectionHintsIff(s: string, c: string)
    ensures (s in Invert(SectionSynonyms) && Invert(SectionSynonyms)[s] == c)
        <==> exists i :: 0 <= i < |SectionSynonyms| && SectionSynonyms[i].0 == c && s in SectionSynonyms[i].1
  {
    SectionSynonymsUnique();
    SectionNamesDistinct();
    InvertIff(SectionSynonyms, s, c);
  }
}
