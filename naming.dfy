/** File-name conventions of the erector-spinae dataset that both setup
    scripts share: the MRI volume is a Dixon scan whose name starts with a
    space, and the segmentation label is called erector.nii. */
module Naming {
  import opened Strings

  const ImagePrefix: string := " mDIXON-Quant_BH"
  const ImageSuffix: string := ".nii"
  const LabelName: string := "erector.nii"

  /** The image test of both scripts: starts with the Dixon prefix (its
      leading space included) and ends with ".nii". The two parts cannot
      overlap, so a passing name is the prefix, something, and the suffix. */
  predicate IsImageName(f: string): (b: bool)
    ensures b <==> exists mid :: f == ImagePrefix + mid + ImageSuffix
  {
    if StartsWith(f, ImagePrefix) && EndsWith(f, ImageSuffix) then
      assert forall k :: 0 <= k < |ImagePrefix| ==> ImagePrefix[k] != '.';
      assert f[|f| - |ImageSuffix|] == '.';
      var mid := f[|ImagePrefix|..|f| - |ImageSuffix|];
      assert f == ImagePrefix + mid + ImageSuffix;
      true
    else
      assert forall mid :: ImagePrefix + mid + ImageSuffix == ImagePrefix + (mid + ImageSuffix);
      false
  }
}
