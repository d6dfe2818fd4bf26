/**
 * The lesson page of a learner (components/user/LessonView.tsx): which
 * attached files can be opened, how the viewer is told their type, the
 * material preview, and the file shown in the viewer dialog.
 */
module LessonView {
  import opened Wrappers
  import opened JsText
  import ModuleView

  datatype File = File(id: int, name: string, mimetype: string)

  const Pdf := "application/pdf"

  /** `isViewable` */
  predicate IsViewable(mimetype: string)
  {
    mimetype == Pdf || StartsWith(mimetype, "video/")
  }

  datatype ViewerType = PdfViewer | VideoViewer

  /** `fileType`: pdf for `application/pdf`, video for anything else. */
  function ViewerTypeOf(f: File): (t: ViewerType)
    ensures t == PdfViewer <==> f.mimetype == Pdf
  {
    if f.mimetype == Pdf then PdfViewer else VideoViewer
  }

  /** A viewable file is shown as a video exactly when it is a video type. */
  lemma ViewableVideoIsVideo(f: File)
    requires IsViewable(f.mimetype)
    ensures ViewerTypeOf(f) == VideoViewer <==> StartsWith(f.mimetype, "video/")
  {
    if StartsWith(f.mimetype, "video/") {
      assert f.mimetype[0] == 'v';
      assert Pdf[0] == 'a';
    }
  }

  /** The header preview: the first 160 characters, with `…` only when the material is longer. */
  function Preview(material: Option<string>): (r: Option<string>)
    ensures r.Some? <==> Truthy(material)
    ensures r.Some? && |material.value| <= 160 ==> r.value == material.value
    ensures r.Some? && |material.value| > 160 ==> r.value == material.value[..160] + "…"
  {
    if !Truthy(material) then None
    else
      var m := material.value;
      Some((if |m| <= 160 then m else m[..160]) + (if |m| > 160 then "…" else ""))
  }

  /** The preview is the module page's `truncate` with its default length. */
  lemma PreviewIsTruncate(material: Option<string>)
    requires Truthy(material)
    ensures Preview(material) == Some(ModuleView.Truncate(material, ModuleView.DefaultLength))
  {
  }

  /** The file open in the viewer dialog. */
  class FileDialog {
    var selected: Option<File>

    constructor()
      ensures selected.None?
    {
      selected := None;
    }

    /** `handleViewFile`, reachable only from the button of a viewable file. */
    method View(f: File)
      modifies this
      ensures IsViewable(f.mimetype) ==> selected == Some(f)
      ensures !IsViewable(f.mimetype) ==> selected == old(selected)
    {
      if IsViewable(f.mimetype) {
        selected := Some(f);
      }
    }

    /** Closing the dialog. */
    method Close()
      modifies this
      ensures selected.None?
    {
      selected := None;
    }
  }
}
