# Erector-spinae dataset preparation, modelled in Dafny

The repository prepares MRI data of the erector spinae muscle for two
segmentation frameworks. Two scripts do this:

- `auto3dseg/setup.py` builds the datalist for MONAI Auto3DSeg. Every
  directory in the dataset root is a patient. Per patient, the first listed
  name that starts with `" mDIXON-Quant_BH"` and ends with `".nii"` is the
  image. The first listed name equal to `"erector.nii"` once stripped of
  surrounding whitespace is the label. A patient lacking either is skipped.
  Each kept patient adds one pair of root-relative paths
  (`patient/file`). The datalist's `numTraining` is the length of that
  list, with no test cases.
- `nnUnet/setup.py` lays out the raw dataset for nnU-Net v2. It scans
  patient ids 1 to 55 in order and skips an id without a folder. The image
  is the first listed name that passes the same test; a second test
  (`" mDIXON-Quant_BH_v3"`) can never fire. It also skips an id whose
  folder lacks a file named exactly `erector.nii`. A kept patient becomes
  `Case_<id, 3 digits>`. Its image is saved as
  `imagesTr/Case_NNN_0000.nii.gz` and its label as
  `labelsTr/Case_NNN.nii.gz`. The manifest's `numTraining` is the number
  of files in labelsTr afterwards.

The file system is an abstract snapshot: a sequence of `Entry(name,
isDir, files)`, in `os.listdir` order. Modules:

- `Strings` (strings.dfy): `startswith`, `endswith`, Python's `strip()`
  with the exact `str.isspace()` character set, `str(n)` and `03d` padding.
- `Lists` (lists.dfy): `Option`, list comprehensions with a filter
  (`Filter`) or a map (`MapSeq`), and the append-in-a-loop pattern
  (`Collect`).
- `Snapshot` (snapshot.dfy): the snapshot's entries and directory lookup.
- `Paths` (paths.dfy): POSIX `os.path.join`.
- `Naming` (naming.dfy): the file-name constants both scripts share.
- `Auto3dSeg` (auto3dseg.dfy) and `NnUnet` (nnunet.dfy): the two scripts.
  Their loops are methods proved against specification functions. The
  nnU-Net output directories are objects of class `OutputDir`, whose
  `files` map holds each saved name and the path it was loaded from.

## Model

| member | source | states |
|---|---|---|
| Strings.StartsWith | auto3dseg/setup.py:20 | `s.startswith(prefix)` holds exactly when `s` is `prefix` followed by some string |
| Strings.EndsWith | auto3dseg/setup.py:20 | `s.endswith(suffix)` holds exactly when `s` is some string followed by `suffix` |
| Strings.Strip | auto3dseg/setup.py:33 | `strip()` returns the input minus its leading and trailing whitespace: the result has no whitespace at either end and sits in the input between two runs of whitespace |
| Strings.StripPadded | auto3dseg/setup.py:33 | a string with no whitespace at either end, padded with any whitespace on both sides, strips back to itself |
| Strings.Decimal | nnUnet/setup.py:23 | `str(n)` is a non-empty string of decimal digits with no leading zero |
| Strings.DecimalRoundTrip | nnUnet/setup.py:23 | reading back the numeral of `n` gives `n` |
| Strings.ZeroPad | nnUnet/setup.py:44 | `03d` padding gives at least `width` digits, ends with the numeral and keeps its value |
| Strings.DecimalBelowThousand | nnUnet/setup.py:44 | the numeral of a number below 1000 has at most three digits |
| Naming.IsImageName | auto3dseg/setup.py:20 | the image test (also nnUnet/setup.py line 30) holds exactly when the name is `" mDIXON-Quant_BH"`, then anything, then `".nii"`: prefix and suffix cannot overlap |
| Lists.Filter | auto3dseg/setup.py:18-21 | a comprehension keeps exactly the listed names that pass the test, and nothing longer than the input |
| Lists.FilterHeadIsFirst | auto3dseg/setup.py:26 | the head of a filtered list is the first element, in listing order, that passes the test |
| Lists.FilterAppend | auto3dseg/setup.py:12 | filtering distributes over concatenation, so it keeps listing order |
| Lists.Collect | auto3dseg/setup.py:44-47 | the values an append-in-a-loop collects, no more than there are elements; its contents are pinned down by CollectOrigins |
| Lists.CollectOrigins | auto3dseg/setup.py:44-47 | a loop that appends at most one value per element gives exactly one value per element that yields one, in element order, and nothing for the others |
| Snapshot.FolderListing | nnUnet/setup.py:23-25 | `isdir` holds exactly when the root has a directory of that name, and `listdir` then returns that directory's listing |
| Paths.Join | nnUnet/setup.py:23 | `os.path.join` returns an absolute second part unchanged; otherwise it is the first part, then a '/' exactly when the first part is non-empty and does not end in one, then the second part |
| Auto3dSeg.IsLabelFile | auto3dseg/setup.py:33 | the name `erector.nii` itself passes the stripped label test, and no name shorter than it does |
| Auto3dSeg.LabelFileIff | auto3dseg/setup.py:31-34 | a name passes the label test exactly when it is `erector.nii` with only whitespace before and after it |
| Auto3dSeg.PatientFolders | auto3dseg/setup.py:12 | the patients are exactly the root entries that are directories |
| Auto3dSeg.ImageFiles | auto3dseg/setup.py:18-21 | the image candidates are exactly the listed names that start with `" mDIXON-Quant_BH"` and end with `".nii"` |
| Auto3dSeg.LabelFiles | auto3dseg/setup.py:31-34 | the label candidates are exactly the listed names whose stripped form is `erector.nii` |
| Auto3dSeg.RelPath | auto3dseg/setup.py:28 | a training path starts with the patient folder name and '/', and ends with the file name |
| Auto3dSeg.SelectPatient | auto3dseg/setup.py:17-41 | a patient yields a pair exactly when it lists an image candidate and a label candidate, and both paths lie in its own folder |
| Auto3dSeg.SelectPatientTakesFirstMatches | auto3dseg/setup.py:18-41 | the pair is `patient/first image candidate` and `patient/first label candidate`, in listing order |
| Auto3dSeg.TrainingList | auto3dseg/setup.py:14-47 | the training list the patient loop builds has at most one pair per patient; its contents are pinned down by TrainingListOrigins |
| Auto3dSeg.TrainingListOrigins | auto3dseg/setup.py:14-47 | the training list has one pair per patient with both files and none for the others, in the order the folders were listed |
| Auto3dSeg.CollectTrainingData | auto3dseg/setup.py:14-47 | the patient loop, with its two skip-and-continue exits, builds exactly the training list, with at most one entry per patient |
| Auto3dSeg.MakeDatalist | auto3dseg/setup.py:50-68 | the datalist's `numTraining` is the length of its training list, `numTest` is 0 and `test` is empty; modality and labels are the fixed maps |
| Auto3dSeg.Setup | auto3dseg/setup.py:9-68 | the written datalist holds the training list of the snapshot, with `numTraining` equal to its length, at most the number of patient folders, and no test cases |
| NnUnet.IsV3ImageName | nnUnet/setup.py:33-35 | every name that passes the `_v3` test also passes the first image test, so the `elif` branch is unreachable |
| NnUnet.FirstImage | nnUnet/setup.py:29-32 | the image search settles on the first listed name that passes the image test, or on none when no name does |
| NnUnet.FindImageFile | nnUnet/setup.py:28-37 | the search loop with its `break` and unreachable `elif` returns the path in the folder of the first image name, or None exactly when there is none |
| NnUnet.PatientFolder | nnUnet/setup.py:23 | the patient folder is `../data/` followed by the decimal id |
| NnUnet.CaseId | nnUnet/setup.py:44 | the case id is `Case_` followed by digits that read back as the patient id |
| NnUnet.CaseIdInjective | nnUnet/setup.py:44 | distinct patient ids have distinct case ids |
| NnUnet.CaseIdLength | nnUnet/setup.py:44 | for ids 1 to 55 the case id is 8 characters long |
| NnUnet.ImageDestName | nnUnet/setup.py:45 | the image file name starts with `Case_`, ends with `_0000.nii.gz`, and the digits between read back as the patient id; DestNamesShareCaseId states it is exactly the 3-digit case id followed by `_0000.nii.gz` |
| NnUnet.LabelDestName | nnUnet/setup.py:46 | the label file name starts with `Case_`, ends with `.nii.gz`, and the digits between read back as the patient id; DestNamesShareCaseId states it is exactly the 3-digit case id followed by `.nii.gz` |
| NnUnet.DestNamesShareCaseId | nnUnet/setup.py:44-46 | the image name is the case id followed by `_0000.nii.gz` and the label name is the same case id followed by `.nii.gz`, so image and label of a case pair up; for ids 1 to 55 the names have 20 and 15 characters |
| NnUnet.DestNamesInjective | nnUnet/setup.py:44-46 | distinct patient ids get distinct image names and distinct label names |
| NnUnet.SelectCase | nnUnet/setup.py:22-46 | a kept patient's case carries its id and the label path `<folder>/erector.nii` |
| NnUnet.SelectCaseIff | nnUnet/setup.py:22-41 | an id is kept exactly when its folder exists, lists an image name and lists `erector.nii` unstripped; the image is then the first image name |
| NnUnet.IdRange | nnUnet/setup.py:22 | the scanned ids are 1, 2, ... in increasing order |
| NnUnet.Cases | nnUnet/setup.py:22-54 | scanning the ids below `hi` yields no more cases than there are ids; its contents are pinned down by CasesScan |
| NnUnet.AllCases | nnUnet/setup.py:22 | the whole scan yields at most 55 cases, each with an id from 1 to 55 |
| NnUnet.CasesStep | nnUnet/setup.py:22-54 | scanning one more id appends that id's case, if it has one |
| NnUnet.CasesFromIds | nnUnet/setup.py:22-46 | the k-th case comes from the k-th id the scan keeps, lies in range, and is that id's own selection |
| NnUnet.CasesCover | nnUnet/setup.py:22-41 | an id in range yields a case exactly when the scan holds a case with that id |
| NnUnet.CasesScan | nnUnet/setup.py:22-25 | cases appear in increasing id order, all in range, and an id yields a case exactly when its selection succeeds |
| NnUnet.ImageSaves | nnUnet/setup.py:45-50 | one image save per case, named `<case id>_0000.nii.gz` and loaded from the case's image path |
| NnUnet.LabelSaves | nnUnet/setup.py:46-54 | one label save per case, named `<case id>.nii.gz` and loaded from the case's label path |
| NnUnet.Apply | nnUnet/setup.py:49-54 | the directory contents after a sequence of saves, applied in order, a later save to a name replacing an earlier one (a definition without a contract; ApplyKeys, ApplyValue and ApplyUntouched state its properties) |
| NnUnet.ApplyKeys | nnUnet/setup.py:49-54 | after the saves, a directory holds its old names and the saved names, and nothing else |
| NnUnet.ApplyValue | nnUnet/setup.py:49-54 | a save that no later save overwrites decides what its name holds afterwards |
| NnUnet.ApplyUntouched | nnUnet/setup.py:49-54 | a name no save writes keeps its old contents, and stays absent if it was absent |
| NnUnet.SavedCaseFiles | nnUnet/setup.py:43-54 | after the loop, each case's image name in imagesTr holds the path its image was loaded from, and its label name in labelsTr the path of its label, whatever the directories held before |
| NnUnet.OtherFilesKept | nnUnet/setup.py:43-54 | a name not starting with `Case_` is left as it was in both output directories |
| NnUnet.ApplyDistinctSize | nnUnet/setup.py:53-54 | saves to pairwise distinct names into an empty directory leave one file per save |
| NnUnet.OutputDir.Store | nnUnet/setup.py:49-54 | a save records the source under the destination name and changes nothing else in that directory |
| NnUnet.OutputDir.Count | nnUnet/setup.py:71 | `len(os.listdir(dir))`: the number of names the directory holds (a definition without a contract; Setup and FreshLabelCount state what that count equals after the loop) |
| NnUnet.CopyCases | nnUnet/setup.py:22-54 | the patient loop leaves imagesTr and labelsTr as their old contents plus exactly the saves of all cases, in id order |
| NnUnet.FreshLabelCount | nnUnet/setup.py:67-71 | into an empty labelsTr the loop leaves exactly one file per processed patient |
| NnUnet.MakeDataset | nnUnet/setup.py:57-74 | the manifest carries the given `numTraining`, labels background→0 and erector_spinae→1, channel 0 MRI and file ending `.nii.gz` |
| NnUnet.Setup | nnUnet/setup.py:22-74 | after the copy every case's image and label are saved under their case names with their source paths; the script's `numTraining` is the number of files in labelsTr, which equals the number of patients processed when labelsTr starts empty |

## Left out

- Loading and saving volumes with nibabel is a call into a foreign imaging library. A save is modelled only as the pair (destination name, source path) that `OutputDir.Store` records.
- The MONAI `AutoRunner` construction and `run()` call are framework training, run as a black box.
- Real file-system access is not modelled: `os.listdir`, `isdir`, `exists`, `makedirs`, `open`, `json.dump`, `print` and the `os.environ` settings. The snapshot stands in for it. Listing order is taken as given, and names within one directory are assumed unique.
- File names are taken as valid Unicode text. On POSIX, `os.listdir` decodes undecodable bytes to lone surrogate code points (surrogateescape), and such a name can still pass the image test. A Dafny `char` cannot hold a lone surrogate, so these names are not modelled.
- `os.path.exists` on `<folder>/erector.nii` is modelled as that name appearing in the folder's listing.
- `os.path.relpath` is modelled only for the case the script meets: a listing name inside a patient folder, giving `patient + "/" + file`. General path normalisation (`.`, `..`, repeated separators) is not modelled.
- The absolute paths the scripts hard-code stand outside the model: the dataset root, the work directory and the nnU-Net raw directory. imagesTr and labelsTr are given as two distinct `OutputDir` objects, with whatever they held before the run.
- JSON text formatting (`indent=4`) is not modelled; each manifest is a datatype record.
