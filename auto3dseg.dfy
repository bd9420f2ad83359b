/** auto3dseg/setup.py: builds the MONAI Auto3DSeg datalist. Every directory
    of the dataset root is a patient; a patient contributes one training
    pair (image, label) when it holds both a Dixon image and an erector
    label, with both paths relative to the dataset root. */
module Auto3dSeg {
  import opened Strings
  import opened Lists
  import opened Snapshot
  import opened Naming

  /** One element of the datalist's "training" array: its "image" and
      "label" paths. */
  datatype Pair = Pair(imagePath: string, labelPath: string)

  /** The label test of this script: the name, stripped of surrounding
      whitespace, is erector.nii. */
  predicate IsLabelFile(f: string): (b: bool)
    ensures f == LabelName ==> b
    ensures b ==> |LabelName| <= |f|
  {
    assert LabelName[0] == 'e' && LabelName[|LabelName| - 1] == 'i';
    StripPadded([], LabelName, []);
    assert [] + LabelName + [] == LabelName;
    Strip(f) == LabelName
  }

  /** `f[i..j]` is erector.nii, with only whitespace before and after it. */
  predicate Framed(f: string, i: int, j: int) {
    0 <= i <= j <= |f| && AllSpace(f[..i]) && f[i..j] == LabelName && AllSpace(f[j..])
  }

  /** What strip() leaves of a passing name is erector.nii, framed by
      whitespace. */
  lemma StrippedIsFramed(f: string)
    requires IsLabelFile(f)
    ensures Framed(f, LeadingSpaces(f), LeadingSpaces(f) + |LabelName|)
  {
    StripFramed(f);
  }

  /** erector.nii framed by whitespace strips to erector.nii. */
  lemma FramedIsStripped(f: string, i: int, j: int)
    requires Framed(f, i, j)
    ensures IsLabelFile(f)
  {
    assert f == f[..i] + LabelName + f[j..];
    assert LabelName[0] == 'e' && LabelName[|LabelName| - 1] == 'i';
    StripPadded(f[..i], LabelName, f[j..]);
  }

  /** A name passes the label test exactly when it is erector.nii with
      nothing but whitespace before and after it. */
  lemma LabelFileIff(f: string)
    ensures IsLabelFile(f) <==> exists i, j :: Framed(f, i, j)
  {
    if IsLabelFile(f) {
      StrippedIsFramed(f);
    }
    if exists i, j :: Framed(f, i, j) {
      var i, j :| Framed(f, i, j);
      FramedIsStripped(f, i, j);
    }
  }

  /** The patient folders: the entries of the dataset root that are
      directories, in listing order. */
  function PatientFolders(root: seq<Entry>): (ps: seq<Entry>)
    ensures forall e :: e in ps <==> e in root && e.isDir
  {
    Filter(root, (e: Entry) => e.isDir)
  }

  /** The image candidates of a patient folder, in listing order. */
  function ImageFiles(files: seq<string>): (r: seq<string>)
    ensures forall f :: f in r <==> f in files && IsImageName(f)
  {
    Filter(files, IsImageName)
  }

  /** The label candidates of a patient folder, in listing order. */
  function LabelFiles(files: seq<string>): (r: seq<string>)
    ensures forall f :: f in r <==> f in files && IsLabelFile(f)
  {
    Filter(files, IsLabelFile)
  }

  /** The path of `file` in folder `patient`, relative to the dataset root.
      Listing names are single path components, so no normalisation
      beyond joining with '/' applies. */
  function RelPath(patient: string, file: string): (r: string)
    ensures StartsWith(r, patient + "/") && EndsWith(r, file)
  {
    var r := patient + "/" + file;
    assert r[..|patient + "/"|] == patient + "/";
    assert r[|r| - |file|..] == file;
    r
  }

  /** The training pair a patient folder contributes, if any: the first
      image candidate and the first label candidate. */
  function SelectPatient(p: Entry): (r: Option<Pair>)
    ensures r.Some? <==>
      (exists f :: f in p.files && IsImageName(f)) && (exists f :: f in p.files && IsLabelFile(f))
    ensures r.Some? ==> StartsWith(r.value.imagePath, p.name + "/") && StartsWith(r.value.labelPath, p.name + "/")
  {
    var images := ImageFiles(p.files);
    if images == [] then
      None
    else
      assert images[0] in images;
      var labels := LabelFiles(p.files);
      if labels == [] then
        None
      else
        assert labels[0] in labels;
        Some(Pair(RelPath(p.name, images[0]), RelPath(p.name, labels[0])))
  }

  /** When several names match, the first in listing order is used, for the
      image and for the label alike. */
  lemma SelectPatientTakesFirstMatches(p: Entry, i: nat, j: nat)
    requires i < |p.files| && IsImageName(p.files[i])
    requires forall k :: 0 <= k < i ==> !IsImageName(p.files[k])
    requires j < |p.files| && IsLabelFile(p.files[j])
    requires forall k :: 0 <= k < j ==> !IsLabelFile(p.files[k])
    ensures SelectPatient(p) == Some(Pair(p.name + "/" + p.files[i], p.name + "/" + p.files[j]))
  {
    FilterHeadIsFirst(p.files, IsImageName, i);
    FilterHeadIsFirst(p.files, IsLabelFile, j);
  }

  /** The "training" array the patient loop builds from `patients`. */
  function TrainingList(patients: seq<Entry>): (t: seq<Pair>)
    ensures |t| <= |patients|
  {
    Collect(patients, SelectPatient)
  }

  /** The training list holds, in patient order, exactly one pair per
      patient that has both an image and a label, and nothing for the
      others; each pair's paths lie in its own patient's folder. */
  lemma TrainingListOrigins(patients: seq<Entry>)
    ensures var ix := Hits(patients, SelectPatient); var t := TrainingList(patients);
      && |ix| == |t|
      && (forall k :: 0 <= k < |ix| ==> ix[k] < |patients| && SelectPatient(patients[ix[k]]) == Some(t[k]))
      && (forall k :: 0 <= k < |ix| ==> StartsWith(t[k].imagePath, patients[ix[k]].name + "/"))
      && (forall k, l :: 0 <= k < l < |ix| ==> ix[k] < ix[l])
      && (forall i :: 0 <= i < |patients| ==> (i in ix <==> SelectPatient(patients[i]).Some?))
  {
    CollectOrigins(patients, SelectPatient);
  }

  /** The patient loop: visits the patient folders in order, skips a
      patient without an image or without a label, and otherwise appends
      its pair. */
  method CollectTrainingData(root: seq<Entry>) returns (training: seq<Pair>)
    ensures training == TrainingList(PatientFolders(root))
    ensures |training| <= |PatientFolders(root)|
  {
    var patients := PatientFolders(root);
    training := [];
    for n := 0 to |patients|
      invariant training == Collect(patients[..n], SelectPatient)
      invariant |training| <= n
    {
      assert patients[..n + 1][..n] == patients[..n];
      var patient := patients[n];
      assert Collect(patients[..n + 1], SelectPatient) == training + AsSeq(SelectPatient(patient));
      var imageFiles := ImageFiles(patient.files);
      if imageFiles == [] {
        continue;
      }
      var imagePath := RelPath(patient.name, imageFiles[0]);
      var labelFiles := LabelFiles(patient.files);
      if labelFiles == [] {
        continue;
      }
      var labelPath := RelPath(patient.name, labelFiles[0]);
      training := training + [Pair(imagePath, labelPath)];
    }
    assert patients[..|patients|] == patients;
  }

  /** The datalist written to dataset.json. */
  datatype Datalist = Datalist(
    name: string,
    description: string,
    reference: string,
    licence: string,
    release: string,
    tensorImageSize: string,
    modality: map<string, string>,
    labels: map<string, string>,
    numTraining: nat,
    numTest: nat,
    training: seq<Pair>,
    test: seq<Pair>)

  /** The datalist for a training list: its counts agree with its lists,
      and it has no test cases. */
  function MakeDatalist(training: seq<Pair>): (d: Datalist)
    ensures d.training == training && d.numTraining == |d.training|
    ensures d.test == [] && d.numTest == |d.test|
    ensures d.modality == map["0" := "MRI"]
    ensures d.labels == map["0" := "background", "1" := "erector"]
  {
    Datalist(
      "Erector Segmentation", "Dataset for erector muscle segmentation", "", "",
      "0.0", "3D", map["0" := "MRI"], map["0" := "background", "1" := "erector"],
      |training|, 0, training, [])
  }

  /** The data-preparation part of the script: the datalist it writes for a
      dataset root. */
  method Setup(root: seq<Entry>) returns (dataset: Datalist)
    ensures dataset.training == TrainingList(PatientFolders(root))
    ensures dataset.numTraining == |dataset.training| <= |PatientFolders(root)|
    ensures dataset.numTest == 0 && dataset.test == []
  {
    var training := CollectTrainingData(root);
    dataset := MakeDatalist(training);
  }
}
