/** dataset/organize_info.py: lists the input directory, classifies every
    regular file by its name, measures it, and writes the inventory document
    `{"arquivos": [...]}` that dataset/clean_input.py reads back. The listing
    and the files' contents arrive already read. */
module OrganizeInfo {
  import opened Wrappers
  import opened Values
  import opened Strings

  const KaggleCsv: string := "kaggle csv"

  /** The six tags `detectar_tipo` returns. */
  predicate IsFileType(t: string) {
    t == KaggleCsv || t == "csv" || t == "json" || t == "excel" || t == "parquet" || t == "desconhecido"
  }

  /** `detectar_tipo`: the tag of a file, read from its lower-cased name; a
      CSV whose name mentions "kaggle" or "health" is a "kaggle csv". */
  function DetectType(fileName: string): (t: string)
    ensures IsFileType(t)
  {
    TagOfLowered(Lower(fileName))
  }

  /** The tests of `detectar_tipo` on the lower-cased name. */
  function TagOfLowered(nome: string): (t: string)
    ensures IsFileType(t)
  {
    if EndsWith(nome, ".csv") then
      if Contains(nome, "kaggle") || Contains(nome, "health") then KaggleCsv else "csv"
    else if EndsWith(nome, ".json") then "json"
    else if EndsWith(nome, ".xlsx") || EndsWith(nome, ".xls") then "excel"
    else if EndsWith(nome, ".parquet") then "parquet"
    else "desconhecido"
  }

  /** The tag depends on the name only up to letter case. */
  lemma DetectTypeIgnoresCase(a: string, b: string)
    requires Lower(a) == Lower(b)
    ensures DetectType(a) == DetectType(b)
  {
  }

  lemma DetectTypeOfLowered(a: string)
    ensures DetectType(Lower(a)) == DetectType(a)
  {
    LowerIdempotent(a);
  }

  /** Any CSV name with "kaggle" or "health" in it, in any letter case, is
      tagged "kaggle csv": "Newborn_HEALTH_data.CSV" is. */
  lemma KaggleByName(a: string, word: string, b: string, ext: string)
    requires Lower(word) == "kaggle" || Lower(word) == "health"
    requires Lower(ext) == ".csv"
    ensures DetectType(a + word + b + ext) == KaggleCsv
  {
    var n := a + word + b + ext;
    LowerInfix(a, word, b, ext);
    EndsWithSuffix(Lower(a) + Lower(word) + Lower(b), ".csv");
    ContainsInfix(Lower(a), Lower(word), Lower(b) + ".csv");
    assert Lower(n) == Lower(a) + Lower(word) + (Lower(b) + ".csv");
    DetectKaggle(n);
  }

  lemma LowerInfix(a: string, word: string, b: string, ext: string)
    ensures Lower(a + word + b + ext) == Lower(a) + Lower(word) + Lower(b) + Lower(ext)
  {
    LowerConcat(a + word + b, ext);
    LowerConcat(a + word, b);
    LowerConcat(a, word);
  }

  lemma DetectKaggle(name: string)
    requires EndsWith(Lower(name), ".csv")
    requires Contains(Lower(name), "kaggle") || Contains(Lower(name), "health")
    ensures DetectType(name) == KaggleCsv
  {
  }

  /** A CSV name mentioning neither word is a plain "csv". */
  lemma PlainCsv(name: string)
    requires EndsWith(Lower(name), ".csv")
    requires !Contains(Lower(name), "kaggle") && !Contains(Lower(name), "health")
    ensures DetectType(name) == "csv"
  {
  }

  /** A name whose last character differs from that of a suffix does not end with it. */
  lemma NotEndsWith(s: string, other: string)
    requires s != [] && other != [] && s[|s| - 1] != other[|other| - 1]
    ensures !EndsWith(s, other)
  {
    if |other| <= |s| {
      assert s[|s| - |other|..][|other| - 1] == s[|s| - 1];
    }
  }

  /** A name ending in a lower-case extension lowers to its lowered stem
      followed by that extension. */
  lemma LowerWithExtension(a: string, ext: string)
    requires forall i :: 0 <= i < |ext| ==> !IsAsciiUpper(ext[i])
    ensures Lower(a + ext) == Lower(a) + ext
    ensures EndsWith(Lower(a + ext), ext)
  {
    LowerConcat(a, ext);
    LowerNoUpper(ext);
    EndsWithSuffix(Lower(a), ext);
  }

  /** The tags of the other extensions, whatever comes before them; the
      ".csv" test comes first and never matches these. */
  lemma JsonByName(a: string)
    ensures DetectType(a + ".json") == "json"
  {
    LowerWithExtension(a, ".json");
    var s := Lower(a) + ".json";
    assert s[|s| - 1] == 'n';
    NotEndsWith(s, ".csv");
  }

  lemma XlsxByName(a: string)
    ensures DetectType(a + ".xlsx") == "excel"
  {
    LowerWithExtension(a, ".xlsx");
    var s := Lower(a) + ".xlsx";
    assert s[|s| - 1] == 'x';
    NotEndsWith(s, ".csv");
    NotEndsWith(s, ".json");
  }

  lemma XlsByName(a: string)
    ensures DetectType(a + ".xls") == "excel"
  {
    LowerWithExtension(a, ".xls");
    var s := Lower(a) + ".xls";
    assert s[|s| - 1] == 's';
    NotEndsWith(s, ".csv");
    NotEndsWith(s, ".json");
    NotEndsWith(s, ".xlsx");
  }

  lemma ParquetByName(a: string)
    ensures DetectType(a + ".parquet") == "parquet"
  {
    LowerWithExtension(a, ".parquet");
    var s := Lower(a) + ".parquet";
    assert s[|s| - 1] == 't';
    NotEndsWith(s, ".csv");
    NotEndsWith(s, ".json");
    NotEndsWith(s, ".xlsx");
    NotEndsWith(s, ".xls");
  }

  // ---------------------------------------------------------------------
  // Counting lines

  predicate IsBreak(c: char) {
    c == '\n' || c == '\r'
  }

  /** Line terminators in `s` as Python's universal-newline reader sees
      them: "\n", "\r" and "\r\n" each end one line. */
  function Breaks(s: string): nat
    decreases |s|
  {
    if s == [] then 0
    else if s[0] == '\r' && |s| > 1 && s[1] == '\n' then 1 + Breaks(s[2..])
    else if IsBreak(s[0]) then 1 + Breaks(s[1..])
    else Breaks(s[1..])
  }

  /** How many lines `for _ in f` yields: one per terminator, plus an
      unterminated last line. */
  function LineCount(s: string): nat {
    Breaks(s) + if s != [] && !IsBreak(s[|s| - 1]) then 1 else 0
  }

  predicate NoBreaks(line: string) {
    forall i :: 0 <= i < |line| ==> !IsBreak(line[i])
  }

  predicate IsNewline(nl: string) {
    nl == "\n" || nl == "\r\n" || nl == "\r"
  }

  /** Lines written one after another, each followed by `nl`. */
  function Terminated(lines: seq<string>, nl: string): string {
    if lines == [] then [] else lines[0] + nl + Terminated(lines[1..], nl)
  }

  lemma {:induction false} BreaksAfterLine(line: string, nl: string, rest: string)
    requires NoBreaks(line) && IsNewline(nl)
    requires nl == "\r" ==> rest == [] || rest[0] != '\n'
    ensures Breaks(line + nl + rest) == 1 + Breaks(rest)
    decreases |line|
  {
    if line == [] {
      assert line + nl + rest == nl + rest;
      if nl == "\r\n" {
        assert (nl + rest)[2..] == rest;
      } else {
        assert (nl + rest)[1..] == rest;
      }
    } else {
      assert (line + nl + rest)[1..] == line[1..] + nl + rest;
      BreaksAfterLine(line[1..], nl, rest);
    }
  }

  /** A file of `k` lines ends in `k` terminators, whichever of the three it uses. */
  lemma {:induction false} BreaksOfTerminated(lines: seq<string>, nl: string)
    requires IsNewline(nl)
    requires forall i :: 0 <= i < |lines| ==> NoBreaks(lines[i])
    ensures Breaks(Terminated(lines, nl)) == |lines|
    ensures lines != [] ==> Terminated(lines, nl) != [] && IsBreak(Terminated(lines, nl)[|Terminated(lines, nl)| - 1])
    decreases |lines|
  {
    if lines != [] {
      var rest := Terminated(lines[1..], nl);
      BreaksOfTerminated(lines[1..], nl);
      if rest != [] {
        assert NoBreaks(lines[1]);
        assert rest == lines[1] + nl + Terminated(lines[2..], nl);
        if lines[1] == [] {
          assert rest[0] == nl[0];
        } else {
          assert rest[0] == lines[1][0];
        }
      }
      BreaksAfterLine(lines[0], nl, rest);
      var t := Terminated(lines, nl);
      if rest == [] {
        assert t == lines[0] + nl;
      } else {
        assert t[|t| - 1] == rest[|rest| - 1];
      }
    }
  }

  /** `contar_linhas` on a CSV written as a header and `k` data lines gives `k`. */
  lemma LinesOfCsv(header: string, data: seq<string>, nl: string)
    requires IsNewline(nl) && NoBreaks(header)
    requires forall i :: 0 <= i < |data| ==> NoBreaks(data[i])
    ensures LineCount(Terminated([header] + data, nl)) - 1 == |data|
  {
    var lines := [header] + data;
    assert forall i :: 0 <= i < |lines| ==> NoBreaks(lines[i]);
    BreaksOfTerminated(lines, nl);
  }

  /** An empty CSV, not even a header, counts as -1 lines. */
  lemma EmptyCsvCount()
    ensures LineCount([]) - 1 == -1
  {
  }

  /** A file's content as the counting code can see it: its text (None when
      opening fails), its parsed JSON (None when it does not parse) and the
      rows pandas reads from it as a workbook (None when that raises). */
  datatype Contents = Contents(text: Option<string>, json: Option<Json>, excelRows: Option<nat>)

  /** `contar_linhas`: data lines of a CSV, length of a JSON list, 1 for other
      JSON, at most 5 rows of a workbook; None for any other type and
      whenever reading raised (the handler swallows every exception). */
  function CountLines(tipo: string, c: Contents): (r: Option<int>)
    ensures EndsWith(tipo, "csv") ==>
              r == if c.text.Some? then Some(LineCount(c.text.value) - 1) else None
    ensures !EndsWith(tipo, "csv") && tipo == "json" ==>
              r == if c.json.None? then None
                   else if c.json.value.JArray? then Some(|c.json.value.items|) else Some(1)
    ensures tipo == "excel" ==> (r.None? <==> c.excelRows.None?)
    ensures tipo == "excel" && c.excelRows.Some? ==>
              0 <= r.value <= 5 && r.value <= c.excelRows.value &&
              (r.value == c.excelRows.value || r.value == 5)
    ensures r.Some? ==> r.value >= -1
    ensures !EndsWith(tipo, "csv") && tipo != "json" && tipo != "excel" ==> r.None?
  {
    if EndsWith(tipo, "csv") then
      match c.text
      case None => None
      case Some(t) => Some(LineCount(t) - 1)
    else if tipo == "json" then
      match c.json
      case None => None
      case Some(v) => Some(if v.JArray? then |v.items| else 1)
    else if tipo == "excel" then
      match c.excelRows
      case None => None
      case Some(n) => Some(if n < 5 then n else 5)
    else None
  }

  // ---------------------------------------------------------------------
  // The size column

  /** `round(size / 1024, 2)` in hundredths: CPython rounds the exact value
      `size / 1024` to two decimals, ties to even. */
  function KbHundredths(size: nat): nat {
    var q, r := (25 * size) / 256, (25 * size) % 256;
    if r < 128 then q
    else if r > 128 then q + 1
    else if q % 2 == 0 then q else q + 1
  }

  function SizeKb(size: nat): real {
    KbHundredths(size) as real / 100.0
  }

  /** The size column is the size in kilobytes to within half a hundredth. */
  lemma SizeKbClose(size: nat)
    ensures -1.0 / 200.0 <= SizeKb(size) - size as real / 1024.0 <= 1.0 / 200.0
  {
    var q, r := (25 * size) / 256, (25 * size) % 256;
    assert 25 * size == 256 * q + r;
    assert size as real / 1024.0 == q as real / 100.0 + r as real / 25600.0;
    if KbHundredths(size) == q {
      assert r <= 128;
      assert SizeKb(size) - size as real / 1024.0 == - (r as real / 25600.0);
    } else {
      assert r >= 128;
      assert SizeKb(size) - size as real / 1024.0 == (256 - r) as real / 25600.0;
    }
  }

  // ---------------------------------------------------------------------
  // gerar_info

  /** One name of `os.listdir(INPUT_DIR)`, with what the script asks of it. */
  datatype DirEntry = DirEntry(name: string, isFile: bool, sizeBytes: nat, contents: Contents)

  /** One element of the "arquivos" list. */
  datatype InfoEntry = InfoEntry(id: nat, arquivo: string, tipo: string, sizeKb: real, linhas: Option<int>)

  function MakeEntry(idx: nat, d: DirEntry): (e: InfoEntry)
    ensures e.id == idx && e.arquivo == d.name && e.tipo == DetectType(d.name)
  {
    var tipo := DetectType(d.name);
    InfoEntry(idx, d.name, tipo, SizeKb(d.sizeBytes), CountLines(tipo, d.contents))
  }

  /** The entries `gerar_info` collects: one per regular file, with its
      position in the whole listing as id; other entries are skipped. */
  function Inventory(listing: seq<DirEntry>): seq<InfoEntry> {
    if listing == [] then []
    else
      var n := |listing| - 1;
      Inventory(listing[..n]) + if listing[n].isFile then [MakeEntry(n, listing[n])] else []
  }

  function EntryJson(e: InfoEntry): Json {
    JObject([
      Member("id", JNum(e.id as real)),
      Member("arquivo", JStr(e.arquivo)),
      Member("tipo", JStr(e.tipo)),
      Member("tamanho_kb", JNum(e.sizeKb)),
      Member("linhas", if e.linhas.Some? then JNum(e.linhas.value as real) else JNull)])
  }

  function EntriesJson(es: seq<InfoEntry>): (r: seq<Json>)
    ensures |r| == |es|
    ensures forall i :: 0 <= i < |es| ==> r[i] == EntryJson(es[i])
  {
    seq(|es|, i requires 0 <= i < |es| => EntryJson(es[i]))
  }

  /** The document written to info.json. */
  function InfoDocument(es: seq<InfoEntry>): Json {
    JObject([Member("arquivos", JArray(EntriesJson(es)))])
  }

  lemma InventoryStep(listing: seq<DirEntry>, i: nat)
    requires i < |listing|
    ensures Inventory(listing[..i + 1]) ==
              Inventory(listing[..i]) + if listing[i].isFile then [MakeEntry(i, listing[i])] else []
  {
    assert listing[..i + 1][..i] == listing[..i];
  }

  /** `gerar_info`: the `enumerate` loop appends one entry per regular file. */
  method GerarInfo(listing: seq<DirEntry>) returns (doc: Json)
    ensures doc == InfoDocument(Inventory(listing))
  {
    var infoLista: seq<InfoEntry> := [];
    var idx := 0;
    assert listing[..0] == [];
    while idx < |listing|
      invariant 0 <= idx <= |listing|
      invariant infoLista == Inventory(listing[..idx])
    {
      InventoryStep(listing, idx);
      var arquivo := listing[idx];
      if arquivo.isFile {
        var tipo := DetectType(arquivo.name);
        var tamanhoKb := SizeKb(arquivo.sizeBytes);
        var linhas := CountLines(tipo, arquivo.contents);
        infoLista := infoLista + [InfoEntry(idx, arquivo.name, tipo, tamanhoKb, linhas)];
      }
      idx := idx + 1;
    }
    assert listing[..idx] == listing;
    doc := InfoDocument(infoLista);
  }

  /** Each entry describes a regular file of the listing: its id is that
      file's position, and it carries the file's name and tag. */
  lemma {:induction false} InventoryEntriesAreFiles(listing: seq<DirEntry>)
    ensures forall k :: 0 <= k < |Inventory(listing)| ==>
              var e := Inventory(listing)[k];
              e.id < |listing| && listing[e.id].isFile && e.arquivo == listing[e.id].name &&
              e.tipo == DetectType(e.arquivo)
    decreases |listing|
  {
    if listing != [] {
      var n := |listing| - 1;
      var p := listing[..n];
      InventoryEntriesAreFiles(p);
      assert forall k :: 0 <= k < |Inventory(p)| ==> Inventory(listing)[k] == Inventory(p)[k];
    }
  }

  /** The ids strictly increase: entries come in listing order, with gaps
      where non-files were skipped. */
  lemma {:induction false} InventoryIdsIncrease(listing: seq<DirEntry>)
    ensures forall k, l :: 0 <= k < l < |Inventory(listing)| ==> Inventory(listing)[k].id < Inventory(listing)[l].id
    decreases |listing|
  {
    if listing != [] {
      var n := |listing| - 1;
      var p := listing[..n];
      InventoryIdsIncrease(p);
      InventoryEntriesAreFiles(p);
      assert forall k :: 0 <= k < |Inventory(p)| ==> Inventory(listing)[k] == Inventory(p)[k];
    }
  }

  /** Some entry of the inventory carries id `i`. */
  predicate HasEntryFor(inv: seq<InfoEntry>, i: int) {
    exists k :: 0 <= k < |inv| && inv[k].id == i
  }

  /** Every regular file of the listing has an entry. */
  lemma {:induction false} InventoryCoversFiles(listing: seq<DirEntry>)
    ensures forall i :: 0 <= i < |listing| && listing[i].isFile ==> HasEntryFor(Inventory(listing), i)
  {
    forall i | 0 <= i < |listing| && listing[i].isFile
      ensures HasEntryFor(Inventory(listing), i)
    {
      var k := InventoryEntryOf(listing, i);
    }
  }

  /** The position in the inventory of the entry for the regular file at `i`. */
  lemma {:induction false} InventoryEntryOf(listing: seq<DirEntry>, i: nat) returns (k: nat)
    requires i < |listing| && listing[i].isFile
    ensures k < |Inventory(listing)| && Inventory(listing)[k].id == i
    decreases |listing|
  {
    var n := |listing| - 1;
    var p := listing[..n];
    var inv := Inventory(listing);
    assert inv == Inventory(p) + if listing[n].isFile then [MakeEntry(n, listing[n])] else [];
    if i == n {
      k := |inv| - 1;
    } else {
      assert p[i] == listing[i];
      k := InventoryEntryOf(p, i);
      assert inv[k] == Inventory(p)[k];
    }
  }
}
