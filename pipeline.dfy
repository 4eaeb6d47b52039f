/** The hand-off between the two dataset scripts: the inventory document
    that dataset/organize_info.py writes is the one dataset/clean_input.py
    reads, and the files the cleaner converts are the ones the inventory
    tagged "kaggle csv". */
module Pipeline {
  import opened Wrappers
  import opened Values
  import CI = CleanInput
  import OI = OrganizeInfo

  /** The regular files of a listing that `detectar_tipo` tags "kaggle csv". */
  function KaggleFiles(listing: seq<OI.DirEntry>): (n: nat)
    ensures n <= |listing|
  {
    if listing == [] then 0
    else
      var d := listing[|listing| - 1];
      KaggleFiles(listing[..|listing| - 1]) + (if d.isFile && OI.DetectType(d.name) == OI.KaggleCsv then 1 else 0)
  }

  /** `load_info` on the written document gives back exactly its entry list. */
  lemma LoadInventory(es: seq<OI.InfoEntry>)
    ensures CI.LoadInfo(OI.InfoDocument(es)) == Success(JArray(OI.EntriesJson(es)))
    ensures Iterate(JArray(OI.EntriesJson(es))) == Success(OI.EntriesJson(es))
  {
    assert HasKey(OI.InfoDocument(es).members, "arquivos");
  }

  /** An inventory entry always has "arquivo" and "tipo", so the entry's own
      subscripts never raise: the cleaner skips every entry not tagged
      "kaggle csv", and for a tagged one it reads `input/<arquivo>` and writes
      the grouping of its rows under that name, or raises what reading or
      grouping raised. */
  lemma EntryProcessing(e: OI.InfoEntry, files: map<string, seq<CI.Row>>)
    ensures CI.IsKaggle(OI.EntryJson(e)) <==> e.tipo == OI.KaggleCsv
    ensures e.tipo != OI.KaggleCsv ==> CI.ProcessEntry(OI.EntryJson(e), files) == Success(None)
    ensures e.tipo == OI.KaggleCsv && CI.Join(CI.InputDir, e.arquivo) !in files ==>
              CI.ProcessEntry(OI.EntryJson(e), files) == Failure(FileNotFound(CI.Join(CI.InputDir, e.arquivo)))
    ensures e.tipo == OI.KaggleCsv && CI.Join(CI.InputDir, e.arquivo) in files ==>
              var path := CI.Join(CI.InputDir, e.arquivo);
              var doc := CI.GroupedDocument(files[path]);
              CI.ProcessEntry(OI.EntryJson(e), files) ==
                if doc.Failure? then Failure(doc.error)
                else Success(Some(CI.Job(path, CI.OutputPath(e.arquivo), doc.value)))
  {
    EntryFields(e);
    if e.tipo == OI.KaggleCsv && CI.Join(CI.InputDir, e.arquivo) in files {
      EntryWritten(e, files);
    }
  }

  lemma EntryWritten(e: OI.InfoEntry, files: map<string, seq<CI.Row>>)
    requires e.tipo == OI.KaggleCsv && CI.Join(CI.InputDir, e.arquivo) in files
    ensures var path := CI.Join(CI.InputDir, e.arquivo);
              var doc := CI.GroupedDocument(files[path]);
              CI.ProcessEntry(OI.EntryJson(e), files) ==
                if doc.Failure? then Failure(doc.error)
                else Success(Some(CI.Job(path, CI.OutputPath(e.arquivo), doc.value)))
  {
    EntryFields(e);
  }

  /** The members "arquivo" and "tipo" of a written entry hold its name and tag. */
  lemma EntryFields(e: OI.InfoEntry)
    ensures OI.EntryJson(e).JObject?
    ensures Lookup(OI.EntryJson(e).members, "arquivo") == Some(JStr(e.arquivo))
    ensures Lookup(OI.EntryJson(e).members, "tipo") == Some(JStr(e.tipo))
  {
    var ms := OI.EntryJson(e).members;
    assert ms[0].key == "id" && ms[1].key == "arquivo" && ms[2].key == "tipo";
    assert "id"[0] != "arquivo"[0] && "id"[0] != "tipo"[0] && "arquivo"[0] != "tipo"[0];
    LookupFirst(ms, 1);
    LookupFirst(ms, 2);
  }

  lemma InventorySnoc(listing: seq<OI.DirEntry>)
    requires listing != []
    ensures var n := |listing| - 1;
      OI.Inventory(listing) == OI.Inventory(listing[..n]) + if listing[n].isFile then [OI.MakeEntry(n, listing[n])] else []
  {
  }

  lemma CountKaggleSnoc(entries: seq<Json>, e: Json)
    ensures CI.CountKaggle(entries + [e]) == CI.CountKaggle(entries) + if CI.IsKaggle(e) then 1 else 0
  {
    assert (entries + [e])[..|entries|] == entries;
  }

  /** The inventory holds one "kaggle csv" entry per regular file so tagged. */
  lemma {:induction false} KaggleEntriesCount(listing: seq<OI.DirEntry>)
    ensures CI.CountKaggle(OI.EntriesJson(OI.Inventory(listing))) == KaggleFiles(listing)
    decreases |listing|
  {
    if listing != [] {
      var n := |listing| - 1;
      var p := listing[..n];
      KaggleEntriesCount(p);
      InventorySnoc(listing);
      if listing[n].isFile {
        var e := OI.MakeEntry(n, listing[n]);
        assert OI.Inventory(listing) == OI.Inventory(p) + [e];
        assert OI.EntriesJson(OI.Inventory(listing)) == OI.EntriesJson(OI.Inventory(p)) + [OI.EntryJson(e)];
        CountKaggleSnoc(OI.EntriesJson(OI.Inventory(p)), OI.EntryJson(e));
        EntryProcessing(e, map[]);
      } else {
        assert OI.Inventory(listing) == OI.Inventory(p);
      }
    }
  }

  /** Running the cleaner on the inventory of a listing: when it ends
      without an exception it has written one JSON file per regular file
      tagged "kaggle csv", each read from `input/<name>`. */
  lemma InventoryRun(listing: seq<OI.DirEntry>, files: map<string, seq<CI.Row>>)
    ensures var run := CI.RunAll(OI.InfoDocument(OI.Inventory(listing)), files);
      run == CI.RunEntries(OI.EntriesJson(OI.Inventory(listing)), files) &&
      (run.error.None? ==> |run.jobs| == KaggleFiles(listing))
  {
    var es := OI.Inventory(listing);
    LoadInventory(es);
    KaggleEntriesCount(listing);
    if CI.RunEntries(OI.EntriesJson(es), files).error.None? {
      CI.RunSelectsKaggle(OI.EntriesJson(es), files);
    }
  }

  /** The stem of the dataset file the training script reads,
      "newborn_health_monitoring_with_risk", split where the tag rule looks. */
  const DatasetStem: string := "newborn_" + "health" + "_monitoring_with_risk"

  const DatasetCsv: string := DatasetStem + ".csv"

  /** The dataset the models are trained on is tagged "kaggle csv"... */
  lemma DatasetTagged()
    ensures OI.DetectType(DatasetCsv) == OI.KaggleCsv
  {
    OI.KaggleByName("newborn_", "health", "_monitoring_with_risk", ".csv");
  }

  /** ...and converted to the JSON file the training script loads. */
  lemma DatasetConverted()
    ensures CI.OutputPath(DatasetCsv) == "output/" + DatasetStem + ".json"
  {
    assert DatasetStem[0] == 'n';
    CI.OutputPathSwapsExtension(DatasetStem, ".csv");
  }
}
