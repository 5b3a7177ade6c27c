/**
  `language_mapping`: the display names the form offers and the language codes the
  service expects, in the order the dictionary literal lists them.
*/
module Languages {
  import opened Wrappers

  /**
    The entries of the dictionary literal, in its order. They are written as four runs
    so that facts about the table can be proved a run at a time.
  */
  const LanguageTable: seq<(string, string)> := Rows1 + Rows2 + Rows3 + Rows4

  const Rows1: seq<(string, string)> := [
    ("Assamese", "asm_Beng"),
    ("Bengali", "ben_Beng"),
    ("Bodo", "brx_Deva"),
    ("Dogri", "doi_Deva"),
    ("English", "eng_Latn"),
    ("Gujarati", "guj_Gujr"),
    ("Hindi", "hin_Deva")
  ]

  const Rows2: seq<(string, string)> := [
    ("Kannada", "kan_Knda"),
    ("Kashmiri (Arabic)", "kas_Arab"),
    ("Kashmiri (Devanagari)", "kas_Deva"),
    ("Konkani", "gom_Deva"),
    ("Malayalam", "mal_Mlym")
  ]

  const Rows3: seq<(string, string)> := [
    ("Manipuri (Bengali)", "mni_Beng"),
    ("Manipuri (Meitei)", "mni_Mtei"),
    ("Maithili", "mai_Deva"),
    ("Marathi", "mar_Deva"),
    ("Nepali", "npi_Deva"),
    ("Odia", "ory_Orya"),
    ("Punjabi", "pan_Guru")
  ]

  const Rows4: seq<(string, string)> := [
    ("Sanskrit", "san_Deva"),
    ("Santali", "sat_Olck"),
    ("Sindhi (Arabic)", "snd_Arab"),
    ("Sindhi (Devanagari)", "snd_Deva"),
    ("Tamil", "tam_Taml"),
    ("Telugu", "tel_Telu"),
    ("Urdu", "urd_Arab")
  ]

  /** Indexing the dictionary with a name it does not hold raises KeyError. */
  datatype LookupError = KeyError(key: string)

  predicate IsLower(c: char) { 'a' <= c <= 'z' }

  predicate IsUpper(c: char) { 'A' <= c <= 'Z' }

  /** `<lang>_<Script>`: three lower-case letters, an underscore, a capitalised four-letter script tag. */
  predicate IsLanguageCode(code: string) {
    && |code| == 8
    && IsLower(code[0]) && IsLower(code[1]) && IsLower(code[2])
    && code[3] == '_'
    && IsUpper(code[4]) && IsLower(code[5]) && IsLower(code[6]) && IsLower(code[7])
  }

  predicate NamesDistinct(table: seq<(string, string)>) {
    forall i, j :: 0 <= i < j < |table| ==> table[i].0 != table[j].0
  }

  predicate CodesDistinct(table: seq<(string, string)>) {
    forall i, j :: 0 <= i < j < |table| ==> table[i].1 != table[j].1
  }

  predicate CodesWellFormed(table: seq<(string, string)>) {
    forall i :: 0 <= i < |table| ==> IsLanguageCode(table[i].1)
  }

  /** No name and no code of `a` appears in `b`. */
  predicate Apart(a: seq<(string, string)>, b: seq<(string, string)>) {
    forall i, j :: 0 <= i < |a| && 0 <= j < |b| ==> a[i].0 != b[j].0 && a[i].1 != b[j].1
  }

  /** Distinct names, distinct codes, every code of the `<lang>_<Script>` form. */
  predicate WellFormedTable(table: seq<(string, string)>) {
    NamesDistinct(table) && CodesDistinct(table) && CodesWellFormed(table)
  }

  predicate Lists(table: seq<(string, string)>, name: string) {
    exists i :: 0 <= i < |table| && table[i].0 == name
  }

  /**
    The code a dictionary literal built from `table` holds for `name`: a later entry
    overwrites an earlier one with the same name, so the last match wins.
  */
  function FindLast(table: seq<(string, string)>, name: string): (r: Option<string>)
    ensures r.Some? <==> Lists(table, name)
    ensures r.Some? ==> exists i :: 0 <= i < |table| && table[i] == (name, r.value)
  {
    if table == [] then None
    else if table[|table| - 1].0 == name then Some(table[|table| - 1].1)
    else FindLast(table[..|table| - 1], name)
  }

  /** `language_mapping[name]`. */
  function Lookup(name: string): (r: Result<string, LookupError>)
    ensures r.Success? <==> Lists(LanguageTable, name)
    ensures r.Failure? ==> r.error == KeyError(name)
    ensures r.Success? ==> IsLanguageCode(r.value)
    ensures r.Success? ==> exists i :: 0 <= i < |LanguageTable| && LanguageTable[i] == (name, r.value)
  {
    TableWellFormed();
    match FindLast(LanguageTable, name)
    case Some(code) => Success(code)
    case None => Failure(KeyError(name))
  }

  /** 26 entries, no name twice, no code twice, every code of the `<lang>_<Script>` form. */
  lemma TableWellFormed()
    ensures |LanguageTable| == 26
    ensures WellFormedTable(LanguageTable)
  {
    Rows1WellFormed();
    Rows2WellFormed();
    Rows3WellFormed();
    Rows4WellFormed();
    RowsApart12();
    RowsApart123();
    RowsApart1234();
    AppendWellFormed(Rows1, Rows2);
    AppendWellFormed(Rows1 + Rows2, Rows3);
    AppendWellFormed(Rows1 + Rows2 + Rows3, Rows4);
  }

  lemma Rows1WellFormed()
    ensures WellFormedTable(Rows1)
  {
    Rows1Names();
    Rows1Codes();
    Rows1Format();
  }

  lemma Rows1Names() ensures NamesDistinct(Rows1) { }

  lemma Rows1Codes() ensures CodesDistinct(Rows1) { }

  lemma Rows1Format() ensures CodesWellFormed(Rows1) { }

  lemma Rows2WellFormed()
    ensures WellFormedTable(Rows2)
  {
    Rows2Names();
    Rows2Codes();
    Rows2Format();
  }

  lemma Rows2Names() ensures NamesDistinct(Rows2) { }

  lemma Rows2Codes() ensures CodesDistinct(Rows2) { }

  lemma Rows2Format() ensures CodesWellFormed(Rows2) { }

  lemma Rows3WellFormed()
    ensures WellFormedTable(Rows3)
  {
    Rows3Names();
    Rows3Codes();
    Rows3Format();
  }

  lemma Rows3Names() ensures NamesDistinct(Rows3) { }

  lemma Rows3Codes() ensures CodesDistinct(Rows3) { }

  lemma Rows3Format() ensures CodesWellFormed(Rows3) { }

  lemma Rows4WellFormed()
    ensures WellFormedTable(Rows4)
  {
    Rows4Names();
    Rows4Codes();
    Rows4Format();
  }

  lemma Rows4Names() ensures NamesDistinct(Rows4) { }

  lemma Rows4Codes() ensures CodesDistinct(Rows4) { }

  lemma Rows4Format() ensures CodesWellFormed(Rows4) { }

  /** No run repeats a name or a code of the runs before it. */
  lemma RowsApart12() ensures Apart(Rows1, Rows2) { }

  lemma RowsApart123() ensures Apart(Rows1 + Rows2, Rows3) { }

  lemma RowsApart1234() ensures Apart(Rows1 + Rows2 + Rows3, Rows4) { }

  /** Two well-formed tables that share no name and no code make a well-formed table. */
  lemma AppendWellFormed(a: seq<(string, string)>, b: seq<(string, string)>)
    requires WellFormedTable(a) && WellFormedTable(b) && Apart(a, b)
    ensures WellFormedTable(a + b)
  {
    var t := a + b;
    forall i, j | 0 <= i < j < |t|
      ensures t[i].0 != t[j].0 && t[i].1 != t[j].1
    {
      if i >= |a| {
        assert t[i] == b[i - |a|] && t[j] == b[j - |a|];
      } else if j >= |a| {
        assert t[i] == a[i] && t[j] == b[j - |a|];
      }
    }
    forall i | 0 <= i < |t|
      ensures IsLanguageCode(t[i].1)
    {
      if i >= |a| {
        assert t[i] == b[i - |a|];
      }
    }
  }

  /** With distinct names, the last match is the only match. */
  lemma {:induction false} FindLastListed(table: seq<(string, string)>, i: nat)
    requires NamesDistinct(table) && i < |table|
    ensures FindLast(table, table[i].0) == Some(table[i].1)
  {
    if i < |table| - 1 {
      FindLastListed(table[..|table| - 1], i);
    }
  }

  /** Every listed name resolves to the code listed beside it. */
  lemma LookupListed(i: nat)
    requires i < |LanguageTable|
    ensures Lookup(LanguageTable[i].0) == Success(LanguageTable[i].1)
  {
    TableWellFormed();
    FindLastListed(LanguageTable, i);
  }

  /** Kannada and English resolve as listed. */
  lemma LookupExamples()
    ensures Lookup("Kannada") == Success("kan_Knda")
    ensures Lookup("English") == Success("eng_Latn")
  {
    LookupListed(7);
    LookupListed(4);
  }

  /** A name outside the table raises KeyError rather than yielding a default. */
  lemma LookupUnknown(name: string)
    requires !Lists(LanguageTable, name)
    ensures Lookup(name) == Failure(KeyError(name))
  {
  }

  /** "French" is not in the table, so looking it up raises KeyError. */
  lemma LookupFrench()
    ensures Lookup("French") == Failure(KeyError("French"))
  {
    forall i | 0 <= i < |LanguageTable|
      ensures LanguageTable[i].0 != "French"
    {
    }
    LookupUnknown("French");
  }
}
