/** nnUnet/setup.py: lays out the raw dataset for nnU-Net v2. Patient ids 1
    to 55 are scanned in order; a patient whose folder holds a Dixon image
    and a file named exactly erector.nii becomes case Case_<id>, its image
    saved as imagesTr/Case_<id>_0000.nii.gz and its label as
    labelsTr/Case_<id>.nii.gz; then dataset.json is written, with the
    number of training cases read back from labelsTr. */
module NnUnet {
  import opened Strings
  import opened Lists
  import opened Snapshot
  import opened Paths
  import opened Naming

  /** The scanned id range is range(FirstId, LastId + 1). */
  const FirstId: nat := 1
  const LastId: nat := 55

  /** The directory holding the patient folders. */
  const OriginalDataDir: string := "../data/"

  const CasePrefix: string := "Case_"
  const ImageDestSuffix: string := "_0000.nii.gz"
  const LabelDestSuffix: string := ".nii.gz"

  /** The prefix of the second image test of the search loop. */
  const V3Prefix: string := " mDIXON-Quant_BH_v3"

  /** The second image test. Every name that passes it passes the first,
      so the `elif` branch of the search loop is never taken. */
  predicate IsV3ImageName(f: string): (b: bool)
    ensures b ==> IsImageName(f)
  {
    assert V3Prefix[..|ImagePrefix|] == ImagePrefix;
    if StartsWith(f, V3Prefix) && EndsWith(f, ImageSuffix) then
      StartsWithTransitive(f, V3Prefix, ImagePrefix);
      true
    else
      false
  }

  // ---------------------------------------------------------------------
  // Names

  /** `os.path.join(original_data_dir, str(patient_id))`. */
  function PatientFolder(id: nat): (r: string)
    ensures r == OriginalDataDir + Decimal(id)
  {
    Join(OriginalDataDir, Decimal(id))
  }

  /** `f'Case_{patient_id:03d}'`. */
  function CaseId(id: nat): (r: string)
    ensures StartsWith(r, CasePrefix)
    ensures AllDigits(r[|CasePrefix|..])
    ensures ParseDecimal(r[|CasePrefix|..]) == id
  {
    var digits := ZeroPad(Decimal(id), 3);
    DecimalRoundTrip(id);
    var r := CasePrefix + digits;
    assert r[..|CasePrefix|] == CasePrefix && r[|CasePrefix|..] == digits;
    r
  }

  /** Distinct patient ids have distinct case ids. */
  lemma CaseIdInjective(a: nat, b: nat)
    ensures CaseId(a) == CaseId(b) ==> a == b
  {
  }

  /** For every scanned id the case id is "Case_" and three digits. */
  lemma CaseIdLength(id: nat)
    requires FirstId <= id <= LastId
    ensures |CaseId(id)| == 8
  {
    DecimalBelowThousand(id);
  }

  /** `f'{case_id}_0000.nii.gz'`: the id can be read back from the name. */
  function ImageDestName(id: nat): (r: string)
    ensures |CasePrefix| + |ImageDestSuffix| <= |r|
    ensures r[..|CasePrefix|] == CasePrefix && r[|r| - |ImageDestSuffix|..] == ImageDestSuffix
    ensures AllDigits(r[|CasePrefix|..|r| - |ImageDestSuffix|])
    ensures ParseDecimal(r[|CasePrefix|..|r| - |ImageDestSuffix|]) == id
  {
    var r := CaseId(id) + ImageDestSuffix;
    assert r[|CasePrefix|..|r| - |ImageDestSuffix|] == CaseId(id)[|CasePrefix|..];
    assert r[..|CasePrefix|] == CaseId(id)[..|CasePrefix|];
    assert r[|r| - |ImageDestSuffix|..] == ImageDestSuffix;
    r
  }

  /** `f'{case_id}.nii.gz'`: the id can be read back from the name. */
  function LabelDestName(id: nat): (r: string)
    ensures |CasePrefix| + |LabelDestSuffix| <= |r|
    ensures r[..|CasePrefix|] == CasePrefix && r[|r| - |LabelDestSuffix|..] == LabelDestSuffix
    ensures AllDigits(r[|CasePrefix|..|r| - |LabelDestSuffix|])
    ensures ParseDecimal(r[|CasePrefix|..|r| - |LabelDestSuffix|]) == id
  {
    var r := CaseId(id) + LabelDestSuffix;
    assert r[|CasePrefix|..|r| - |LabelDestSuffix|] == CaseId(id)[|CasePrefix|..];
    assert r[..|CasePrefix|] == CaseId(id)[..|CasePrefix|];
    assert r[|r| - |LabelDestSuffix|..] == LabelDestSuffix;
    r
  }

  /** The image and label of a case are named by the same case id, the
      image with `_0000.nii.gz` and the label with `.nii.gz`; for a scanned
      id the names are 20 and 15 characters long. */
  lemma DestNamesShareCaseId(id: nat)
    ensures ImageDestName(id) == CaseId(id) + ImageDestSuffix
    ensures LabelDestName(id) == CaseId(id) + LabelDestSuffix
    ensures FirstId <= id <= LastId ==> |ImageDestName(id)| == 20 && |LabelDestName(id)| == 15
  {
    if FirstId <= id <= LastId {
      CaseIdLength(id);
    }
  }

  lemma AppendCancel(a: string, b: string, t: string)
    ensures a + t == b + t ==> a == b
  {
    if a + t == b + t {
      assert a == (a + t)[..|a|] && b == (b + t)[..|b|];
    }
  }

  /** Distinct patient ids get distinct destination names, in imagesTr and
      in labelsTr alike. */
  lemma DestNamesInjective(a: nat, b: nat)
    ensures ImageDestName(a) == ImageDestName(b) ==> a == b
    ensures LabelDestName(a) == LabelDestName(b) ==> a == b
  {
    AppendCancel(CaseId(a), CaseId(b), ImageDestSuffix);
    AppendCancel(CaseId(a), CaseId(b), LabelDestSuffix);
    CaseIdInjective(a, b);
  }

  // ---------------------------------------------------------------------
  // Selecting a patient's files

  /** The name the image search settles on: the first listed name that
      passes the image test. */
  function FirstImage(files: seq<string>): (r: Option<string>)
    ensures r.None? <==> forall k :: 0 <= k < |files| ==> !IsImageName(files[k])
    ensures r.Some? ==>
      exists k :: (0 <= k < |files| && files[k] == r.value && IsImageName(r.value) &&
                   forall j :: 0 <= j < k ==> !IsImageName(files[j]))
  {
    if files == [] then None
    else if IsImageName(files[0]) then Some(files[0])
    else
      var r := FirstImage(files[1..]);
      assert forall k :: 1 <= k < |files| ==> files[k] == files[1..][k - 1];
      r
  }

  /** The image search: walks the listing and stops at the first name that
      passes either image test, recording its path in the folder. */
  method FindImageFile(folder: string, files: seq<string>) returns (imageFile: Option<string>)
    ensures imageFile.None? <==> FirstImage(files).None?
    ensures imageFile.Some? ==> imageFile.value == Join(folder, FirstImage(files).value)
  {
    imageFile := None;
    var i := 0;
    while i < |files|
      invariant 0 <= i <= |files|
      invariant imageFile.None?
      invariant FirstImage(files) == FirstImage(files[i..])
    {
      var filename := files[i];
      assert files[i..][1..] == files[i + 1..];
      if IsImageName(filename) {
        imageFile := Some(Join(folder, filename));
        break;
      } else if IsV3ImageName(filename) {
        assert false;
      }
      i := i + 1;
    }
  }

  /** One case of the training set: the patient id and the paths its image
      and label are loaded from. */
  datatype Case = Case(id: nat, imageSource: string, labelSource: string)

  /** The case patient `id` yields, if any: none when the folder is
      missing, when no image is found, or when no file is named exactly
      erector.nii. */
  function SelectCase(root: seq<Entry>, id: nat): (r: Option<Case>)
    ensures r.Some? ==> r.value.id == id
    ensures r.Some? ==> r.value.labelSource == PatientFolder(id) + "/" + LabelName
  {
    match FolderListing(root, Decimal(id))
    case None => None
    case Some(files) =>
      match FirstImage(files)
      case None => None
      case Some(image) =>
        if LabelName in files then
          Some(Case(id, Join(PatientFolder(id), image), Join(PatientFolder(id), LabelName)))
        else
          None
  }

  /** A patient is kept exactly when its folder exists, lists a name that
      passes the image test, and lists the name erector.nii itself (no
      stripping); the image source is then its first such name. */
  lemma SelectCaseIff(root: seq<Entry>, id: nat)
    ensures var listing := FolderListing(root, Decimal(id));
      SelectCase(root, id).Some? <==>
        listing.Some? && (exists f :: f in listing.value && IsImageName(f)) && LabelName in listing.value
    ensures var listing := FolderListing(root, Decimal(id));
      SelectCase(root, id).Some? ==>
        SelectCase(root, id).value.imageSource == PatientFolder(id) + "/" + FirstImage(listing.value).value
  {
    var folder := PatientFolder(id);
    assert folder[|folder| - 1] == Decimal(id)[|Decimal(id)| - 1] != '/';
    match FolderListing(root, Decimal(id))
    case None =>
    case Some(files) =>
      match FirstImage(files)
      case None =>
        assert forall f :: f in files ==> !IsImageName(f);
      case Some(image) =>
        assert image in files && IsImageName(image);
        assert image[0] == ' ';
        assert Join(folder, image) == folder + "/" + image;
  }

  /** The ids FirstId, FirstId + 1, ..., hi - 1, in scanning order. */
  function IdRange(hi: nat): (ids: seq<nat>)
    ensures |ids| == if hi <= FirstId then 0 else hi - FirstId
    ensures forall k :: 0 <= k < |ids| ==> ids[k] == FirstId + k
  {
    if hi <= FirstId then [] else seq(hi - FirstId, k => FirstId + k)
  }

  /** The per-id decision as a function value, for Collect. */
  function Selector(root: seq<Entry>): nat -> Option<Case> {
    (id: nat) => SelectCase(root, id)
  }

  /** The cases produced for ids FirstId up to, not including, `hi`. */
  function Cases(root: seq<Entry>, hi: nat): (r: seq<Case>)
    ensures |r| <= |IdRange(hi)|
  {
    Collect(IdRange(hi), Selector(root))
  }

  /** All cases the script produces: at most one per scanned id. */
  function AllCases(root: seq<Entry>): (r: seq<Case>)
    ensures |r| <= LastId - FirstId + 1
    ensures forall k :: 0 <= k < |r| ==> FirstId <= r[k].id <= LastId
  {
    CasesScan(root, LastId + 1);
    Cases(root, LastId + 1)
  }

  /** Scanning one more id appends that id's case, if any. */
  lemma CasesStep(root: seq<Entry>, id: nat)
    requires FirstId <= id
    ensures Cases(root, id + 1) == Cases(root, id) + AsSeq(SelectCase(root, id))
  {
    var ids := IdRange(id + 1);
    assert ids[..|ids| - 1] == IdRange(id);
    assert ids[|ids| - 1] == id;
  }

  /** The k-th case comes from the k-th hit of the scan, so it is that id's
      own case. */
  lemma CasesFromIds(root: seq<Entry>, hi: nat)
    ensures var cs, ix := Cases(root, hi), Hits(IdRange(hi), Selector(root));
      |ix| == |cs| &&
      forall k :: 0 <= k < |cs| ==>
        cs[k].id == FirstId + ix[k] && FirstId <= cs[k].id < hi && SelectCase(root, cs[k].id) == Some(cs[k])
  {
    var ids, f := IdRange(hi), Selector(root);
    var cs, ix := Cases(root, hi), Hits(ids, f);
    CollectOrigins(ids, f);
    forall k | 0 <= k < |cs|
      ensures cs[k].id == FirstId + ix[k] && FirstId <= cs[k].id < hi
      ensures SelectCase(root, cs[k].id) == Some(cs[k])
    {
      assert ix[k] < |ids|;
      assert f(ids[ix[k]]) == Some(cs[k]);
      assert f(ids[ix[k]]) == SelectCase(root, ids[ix[k]]);
    }
  }

  /** An id in range yields a case exactly when the scan holds a case with
      that id. */
  lemma CasesCover(root: seq<Entry>, hi: nat)
    ensures forall id :: FirstId <= id < hi ==>
      (SelectCase(root, id).Some? <==> exists k :: 0 <= k < |Cases(root, hi)| && Cases(root, hi)[k].id == id)
  {
    var ids, f := IdRange(hi), Selector(root);
    var cs := Cases(root, hi);
    CasesFromIds(root, hi);
    forall id | FirstId <= id < hi && SelectCase(root, id).Some?
      ensures exists k :: 0 <= k < |cs| && cs[k].id == id
    {
      var i := id - FirstId;
      assert ids[i] == id;
      assert f(ids[i]) == SelectCase(root, id);
      CollectHit(ids, f, i);
      var k :| 0 <= k < |cs| && cs[k] == SelectCase(root, id).value;
      assert cs[k].id == id;
    }
  }

  /** The ids are scanned in increasing order, and each id in range yields
      its case exactly when SelectCase finds one. */
  lemma CasesScan(root: seq<Entry>, hi: nat)
    ensures forall k :: 0 <= k < |Cases(root, hi)| ==>
      FirstId <= Cases(root, hi)[k].id < hi && SelectCase(root, Cases(root, hi)[k].id) == Some(Cases(root, hi)[k])
    ensures forall k, l :: 0 <= k < l < |Cases(root, hi)| ==> Cases(root, hi)[k].id < Cases(root, hi)[l].id
    ensures forall id :: FirstId <= id < hi ==>
      (SelectCase(root, id).Some? <==> exists k :: 0 <= k < |Cases(root, hi)| && Cases(root, hi)[k].id == id)
  {
    CasesFromIds(root, hi);
    HitsShape(IdRange(hi), Selector(root));
    CasesCover(root, hi);
  }

  // ---------------------------------------------------------------------
  // The output directories

  /** A save into an output directory: the file name written and the path
      the volume was loaded from. */
  datatype Save = Save(dest: string, source: string)

  /** The image save of one case. */
  function ImageSave(c: Case): Save {
    Save(ImageDestName(c.id), c.imageSource)
  }

  /** The label save of one case. */
  function LabelSave(c: Case): Save {
    Save(LabelDestName(c.id), c.labelSource)
  }

  /** The image saves of the cases, in case order. */
  function ImageSaves(cases: seq<Case>): (r: seq<Save>)
    ensures |r| == |cases|
    ensures forall k :: 0 <= k < |r| ==> r[k] == Save(ImageDestName(cases[k].id), cases[k].imageSource)
  {
    MapSeq(cases, ImageSave)
  }

  /** The label saves of the cases, in case order. */
  function LabelSaves(cases: seq<Case>): (r: seq<Save>)
    ensures |r| == |cases|
    ensures forall k :: 0 <= k < |r| ==> r[k] == Save(LabelDestName(cases[k].id), cases[k].labelSource)
  {
    MapSeq(cases, LabelSave)
  }

  lemma ImageSavesAppend(cases: seq<Case>, c: Case)
    ensures ImageSaves(cases + [c]) == ImageSaves(cases) + [Save(ImageDestName(c.id), c.imageSource)]
  {
    MapSeqAppend(cases, c, ImageSave);
  }

  lemma LabelSavesAppend(cases: seq<Case>, c: Case)
    ensures LabelSaves(cases + [c]) == LabelSaves(cases) + [Save(LabelDestName(c.id), c.labelSource)]
  {
    MapSeqAppend(cases, c, LabelSave);
  }

  /** The directory contents after the saves `ws`, in order, starting from
      contents `m`; a later save to a name replaces an earlier one. */
  function Apply(m: map<string, string>, ws: seq<Save>): map<string, string>
    decreases |ws|
  {
    if ws == [] then m
    else
      var w := ws[|ws| - 1];
      Apply(m, ws[..|ws| - 1])[w.dest := w.source]
  }

  lemma ApplyAppend(m: map<string, string>, ws: seq<Save>, w: Save)
    ensures Apply(m, ws + [w]) == Apply(m, ws)[w.dest := w.source]
  {
    assert (ws + [w])[..|ws|] == ws;
  }

  /** After the saves the directory holds what it held before and the names
      saved to, and nothing else. */
  lemma {:induction false} ApplyKeys(m: map<string, string>, ws: seq<Save>)
    ensures forall x :: x in Apply(m, ws) <==> x in m || exists k :: 0 <= k < |ws| && ws[k].dest == x
    decreases |ws|
  {
    if ws != [] {
      var n := |ws| - 1;
      ApplyKeys(m, ws[..n]);
      assert forall k :: 0 <= k < n ==> ws[..n][k] == ws[k];
    }
  }

  /** Saves to pairwise distinct names into an empty directory leave one
      file per save. */
  lemma {:induction false} ApplyDistinctSize(ws: seq<Save>)
    requires forall k, l :: 0 <= k < l < |ws| ==> ws[k].dest != ws[l].dest
    ensures |Apply(map[], ws)| == |ws|
    decreases |ws|
  {
    if ws != [] {
      var n := |ws| - 1;
      var init := ws[..n];
      assert forall k :: 0 <= k < n ==> init[k] == ws[k];
      ApplyDistinctSize(init);
      ApplyUntouched(map[], init, ws[n].dest);
      assert Apply(map[], ws) == Apply(map[], init)[ws[n].dest := ws[n].source];
    }
  }

  /** A save that no later save overwrites determines what its name holds
      afterwards. */
  lemma {:induction false} ApplyValue(m: map<string, string>, ws: seq<Save>, k: nat)
    requires k < |ws|
    requires forall l :: k < l < |ws| ==> ws[l].dest != ws[k].dest
    ensures ws[k].dest in Apply(m, ws) && Apply(m, ws)[ws[k].dest] == ws[k].source
    decreases |ws|
  {
    var n := |ws| - 1;
    if k < n {
      var init := ws[..n];
      assert forall l :: 0 <= l < n ==> init[l] == ws[l];
      ApplyValue(m, init, k);
    }
  }

  /** A name no save writes keeps what it held before, and stays absent if
      it was absent. */
  lemma {:induction false} ApplyUntouched(m: map<string, string>, ws: seq<Save>, x: string)
    requires forall k :: 0 <= k < |ws| ==> ws[k].dest != x
    ensures x in Apply(m, ws) <==> x in m
    ensures x in m ==> Apply(m, ws)[x] == m[x]
    decreases |ws|
  {
    if ws != [] {
      var n := |ws| - 1;
      var init := ws[..n];
      assert forall k :: 0 <= k < n ==> init[k] == ws[k];
      ApplyUntouched(m, init, x);
    }
  }

  /** After the loop, imagesTr holds, under each case's image name, the
      path its image was loaded from, and labelsTr likewise for its label,
      whatever the directories held before. */
  lemma SavedCaseFiles(root: seq<Entry>, images: map<string, string>, labels: map<string, string>, k: nat)
    requires k < |AllCases(root)|
    ensures var c := AllCases(root)[k]; var imagesAfter := Apply(images, ImageSaves(AllCases(root)));
      ImageDestName(c.id) in imagesAfter && imagesAfter[ImageDestName(c.id)] == c.imageSource
    ensures var c := AllCases(root)[k]; var labelsAfter := Apply(labels, LabelSaves(AllCases(root)));
      LabelDestName(c.id) in labelsAfter && labelsAfter[LabelDestName(c.id)] == c.labelSource
  {
    var cs := AllCases(root);
    CasesScan(root, LastId + 1);
    var iws, lws := ImageSaves(cs), LabelSaves(cs);
    forall l | k < l < |cs|
      ensures iws[l].dest != iws[k].dest && lws[l].dest != lws[k].dest
    {
      DestNamesInjective(cs[l].id, cs[k].id);
    }
    ApplyValue(images, iws, k);
    ApplyValue(labels, lws, k);
  }

  /** A name not starting with "Case_" is left as it was in both output
      directories. */
  lemma OtherFilesKept(root: seq<Entry>, images: map<string, string>, labels: map<string, string>, x: string)
    requires !StartsWith(x, CasePrefix)
    ensures var imagesAfter := Apply(images, ImageSaves(AllCases(root)));
      (x in imagesAfter <==> x in images) && (x in images ==> imagesAfter[x] == images[x])
    ensures var labelsAfter := Apply(labels, LabelSaves(AllCases(root)));
      (x in labelsAfter <==> x in labels) && (x in labels ==> labelsAfter[x] == labels[x])
  {
    var cs := AllCases(root);
    var iws, lws := ImageSaves(cs), LabelSaves(cs);
    forall k | 0 <= k < |cs|
      ensures iws[k].dest != x && lws[k].dest != x
    {
      var a, b := ImageDestName(cs[k].id), LabelDestName(cs[k].id);
      assert a[..|CasePrefix|] == CasePrefix && b[..|CasePrefix|] == CasePrefix;
    }
    ApplyUntouched(images, iws, x);
    ApplyUntouched(labels, lws, x);
  }

  /** A directory the script saves into. `files` maps each name it holds to
      the path of the volume saved under it (or to whatever it held
      before). */
  class OutputDir {
    var files: map<string, string>

    constructor (existing: map<string, string>)
      ensures files == existing
    {
      files := existing;
    }

    /** `nib.save(nib.load(source), join(dir, name))`. */
    method Store(name: string, source: string)
      modifies this
      ensures files == old(files)[name := source]
    {
      files := files[name := source];
    }

    /** `len(os.listdir(dir))`. */
    function Count(): nat
      reads this
    {
      |files|
    }
  }

  /** The patient loop: scans ids FirstId..LastId, skips an id without a
      folder, without an image or without erector.nii, and otherwise saves
      the image and the label under the case's names. */
  method CopyCases(root: seq<Entry>, imagesTr: OutputDir, labelsTr: OutputDir)
    requires imagesTr != labelsTr
    modifies imagesTr, labelsTr
    ensures imagesTr.files == Apply(old(imagesTr.files), ImageSaves(AllCases(root)))
    ensures labelsTr.files == Apply(old(labelsTr.files), LabelSaves(AllCases(root)))
  {
    assert IdRange(FirstId) == [];
    assert Cases(root, FirstId) == [];
    for patientId := FirstId to LastId + 1
      invariant imagesTr.files == Apply(old(imagesTr.files), ImageSaves(Cases(root, patientId)))
      invariant labelsTr.files == Apply(old(labelsTr.files), LabelSaves(Cases(root, patientId)))
    {
      ghost var before := Cases(root, patientId);
      CasesStep(root, patientId);
      var listing := FolderListing(root, Decimal(patientId));
      if listing.None? {
        assert SelectCase(root, patientId).None?;
        assert Cases(root, patientId + 1) == before;
        continue;
      }
      var patientFolder := PatientFolder(patientId);
      var imageFile := FindImageFile(patientFolder, listing.value);
      if imageFile.None? {
        assert SelectCase(root, patientId).None?;
        assert Cases(root, patientId + 1) == before;
        continue;
      }
      var labelFile := Join(patientFolder, LabelName);
      if LabelName !in listing.value {
        assert SelectCase(root, patientId).None?;
        assert Cases(root, patientId + 1) == before;
        continue;
      }
      var imageDest := ImageDestName(patientId);
      var labelDest := LabelDestName(patientId);
      ghost var c := Case(patientId, imageFile.value, labelFile);
      assert SelectCase(root, patientId) == Some(c);
      ImageSavesAppend(before, c);
      LabelSavesAppend(before, c);
      ApplyAppend(old(imagesTr.files), ImageSaves(before), Save(imageDest, imageFile.value));
      ApplyAppend(old(labelsTr.files), LabelSaves(before), Save(labelDest, labelFile));
      imagesTr.Store(imageDest, imageFile.value);
      labelsTr.Store(labelDest, labelFile);
      assert imagesTr.files == Apply(old(imagesTr.files), ImageSaves(Cases(root, patientId + 1)));
      assert labelsTr.files == Apply(old(labelsTr.files), LabelSaves(Cases(root, patientId + 1)));
    }
  }

  /** Into an empty labelsTr the loop saves one label per case. */
  lemma FreshLabelCount(root: seq<Entry>)
    ensures |Apply(map[], LabelSaves(AllCases(root)))| == |AllCases(root)|
  {
    var cs := AllCases(root);
    var ws := LabelSaves(cs);
    CasesScan(root, LastId + 1);
    forall k, l | 0 <= k < l < |ws|
      ensures ws[k].dest != ws[l].dest
    {
      DestNamesInjective(cs[k].id, cs[l].id);
    }
    ApplyDistinctSize(ws);
  }

  // ---------------------------------------------------------------------
  // dataset.json

  /** The nnU-Net v2 dataset description. */
  datatype Dataset = Dataset(
    name: string,
    description: string,
    reference: string,
    licence: string,
    release: string,
    tensorImageSize: string,
    channelNames: map<string, string>,
    labels: map<string, int>,
    numTraining: nat,
    fileEnding: string)

  function MakeDataset(numTraining: nat): (d: Dataset)
    ensures d.numTraining == numTraining
    ensures d.labels == map["background" := 0, "erector_spinae" := 1]
    ensures d.channelNames == map["0" := "MRI"]
    ensures d.fileEnding == LabelDestSuffix
  {
    Dataset(
      "Erector Spinae Segmentation", "Segmentation of Erector Spinae muscle", "", "",
      "0.0", "3D", map["0" := "MRI"], map["background" := 0, "erector_spinae" := 1],
      numTraining, ".nii.gz")
  }

  /** The whole script: copies the cases, then describes the dataset with
      as many training cases as labelsTr now holds. */
  method Setup(root: seq<Entry>, imagesTr: OutputDir, labelsTr: OutputDir) returns (dataset: Dataset)
    requires imagesTr != labelsTr
    modifies imagesTr, labelsTr
    ensures imagesTr.files == Apply(old(imagesTr.files), ImageSaves(AllCases(root)))
    ensures labelsTr.files == Apply(old(labelsTr.files), LabelSaves(AllCases(root)))
    ensures forall k :: 0 <= k < |AllCases(root)| ==>
      var c := AllCases(root)[k];
      && ImageDestName(c.id) in imagesTr.files && imagesTr.files[ImageDestName(c.id)] == c.imageSource
      && LabelDestName(c.id) in labelsTr.files && labelsTr.files[LabelDestName(c.id)] == c.labelSource
    ensures dataset.numTraining == |labelsTr.files|
    ensures old(labelsTr.files) == map[] ==> dataset.numTraining == |AllCases(root)|
    ensures dataset.labels == map["background" := 0, "erector_spinae" := 1]
    ensures dataset.fileEnding == ".nii.gz"
  {
    CopyCases(root, imagesTr, labelsTr);
    ghost var cs, images, labels := AllCases(root), old(imagesTr.files), old(labelsTr.files);
    assert imagesTr.files == Apply(images, ImageSaves(cs)) && labelsTr.files == Apply(labels, LabelSaves(cs));
    forall k | 0 <= k < |AllCases(root)|
      ensures var c := AllCases(root)[k];
        && ImageDestName(c.id) in imagesTr.files && imagesTr.files[ImageDestName(c.id)] == c.imageSource
        && LabelDestName(c.id) in labelsTr.files && labelsTr.files[LabelDestName(c.id)] == c.labelSource
    {
      SavedCaseFiles(root, images, labels, k);
    }
    dataset := MakeDataset(labelsTr.Count());
    FreshLabelCount(root);
  }
}
