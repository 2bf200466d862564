/**
 * The file grid: icon choice by extension, the path a folder opens to, what a
 * double-click does, how delete is dispatched, and the preview dialog with its
 * choice of player by file name.
 */
module FileGrid {
  import opened Wrappers
  import opened Http
  import opened JsText
  import opened StorageTypes
  import Dashboard

  datatype Icon = FolderIcon | ImageIcon | VideoIcon | MusicIcon | ArchiveIcon | FileTextIcon

  const ImageExtensions: seq<string> := ["jpg", "jpeg", "png", "gif", "svg", "webp"]
  const VideoExtensions: seq<string> := ["mp4", "avi", "mov", "wmv", "flv"]
  const AudioExtensions: seq<string> := ["mp3", "wav", "flac", "aac"]
  const ArchiveExtensions: seq<string> := ["zip", "rar", "7z", "tar"]

  /** `fileName.split('.').pop().toLowerCase()`: the lowercased text after the last '.',
      or the whole lowercased name when there is no '.'. */
  function Extension(name: string): (r: string)
    ensures '.' !in r
    ensures Lower(r) == r
  {
    var last := Last(Split(name, '.'));
    LowerKeepsChar(last, '.');
    LowerIdempotent(last);
    Lower(last)
  }

  /** `getFileIcon(fileName)`: the four extension lists are disjoint, so each icon but the
      generic one stands for exactly its list, and a file never gets the folder icon. */
  function FileIcon(name: string): (r: Icon)
    ensures r != FolderIcon
    ensures r == ImageIcon <==> Extension(name) in ImageExtensions
    ensures r == VideoIcon <==> Extension(name) in VideoExtensions
    ensures r == MusicIcon <==> Extension(name) in AudioExtensions
    ensures r == ArchiveIcon <==> Extension(name) in ArchiveExtensions
  {
    var ext := Extension(name);
    if ext in ImageExtensions then ImageIcon
    else if ext in VideoExtensions then VideoIcon
    else if ext in AudioExtensions then MusicIcon
    else if ext in ArchiveExtensions then ArchiveIcon
    else FileTextIcon
  }

  /** The icon a grid card shows: folders get the folder icon, files the one for their name. */
  function ItemIcon(item: FolderItem): (r: Icon)
    ensures r == FolderIcon <==> item.kind == Folder
    ensures item.kind == File ==> r == FileIcon(item.name)
  {
    if item.kind == Folder then FolderIcon else FileIcon(item.name)
  }

  /** The last '.' of a dotted name splits it into a stem and a dot-free extension. */
  lemma {:induction false} LastDot(name: string) returns (stem: string, ext: string)
    requires '.' in name
    ensures name == stem + "." + ext && '.' !in ext
  {
    var n := |name|;
    if name[n - 1] == '.' {
      stem, ext := name[..n - 1], "";
    } else {
      assert '.' in name[..n - 1] by {
        var i :| 0 <= i < n && name[i] == '.';
        assert name[..n - 1][i] == '.';
      }
      var s, e := LastDot(name[..n - 1]);
      stem, ext := s, e + [name[n - 1]];
      assert name == name[..n - 1] + [name[n - 1]];
    }
  }

  /** The extension of `stem.ext` is the lowercased text after the last dot. */
  lemma ExtensionOfDottedName(stem: string, ext: string)
    requires '.' !in ext
    ensures Extension(stem + "." + ext) == Lower(ext)
  {
    SplitAppend(stem, ext, '.');
    SplitWithoutSeparator(ext, '.');
  }

  /** A name without '.' is its own extension. */
  lemma ExtensionOfUndottedName(name: string)
    requires '.' !in name
    ensures Extension(name) == Lower(name)
  {
    SplitWithoutSeparator(name, '.');
  }

  /** Lowercasing a name first does not change its extension. */
  lemma ExtensionOfLower(name: string)
    ensures Extension(Lower(name)) == Extension(name)
  {
    LowerKeepsChar(name, '.');
    LowerIdempotent(name);
    if '.' in name {
      var stem, ext := LastDot(name);
      LowerAppend(stem + ".", ext);
      LowerAppend(stem, ".");
      assert Lower(".") == ".";
      LowerKeepsChar(ext, '.');
      ExtensionOfDottedName(stem, ext);
      ExtensionOfDottedName(Lower(stem), Lower(ext));
      LowerIdempotent(ext);
    } else {
      ExtensionOfUndottedName(name);
      ExtensionOfUndottedName(Lower(name));
    }
  }

  /** Names that differ only in letter case get the same icon. */
  lemma IconIgnoresCase(a: string, b: string)
    requires Lower(a) == Lower(b)
    ensures FileIcon(a) == FileIcon(b)
  {
    ExtensionOfLower(a);
    ExtensionOfLower(b);
  }

  /** The dialog's player, chosen by the case-insensitive patterns `\.(ext|...)$` in turn. */
  datatype PreviewKind = ImagePreview | VideoPreview | AudioPreview | PagePreview

  /** `name` matches `/\.(e1|e2|...)$/i` for the lowercase extensions `exts`; only a name
      with a '.' can match. */
  predicate EndsWithExtensionIn(name: string, exts: seq<string>)
    ensures EndsWithExtensionIn(name, exts) ==> '.' in name
  {
    UndottedNameMatchesNoPattern(name, exts);
    exists j :: 0 <= j < |exts| && EndsWith(Lower(name), "." + exts[j])
  }

  /** A name without '.' ends with no `.e`, whatever the extensions. */
  lemma UndottedNameMatchesNoPattern(name: string, exts: seq<string>)
    ensures '.' !in name ==> forall j :: 0 <= j < |exts| ==> !EndsWith(Lower(name), "." + exts[j])
  {
    if '.' !in name {
      LowerKeepsChar(name, '.');
      var l := Lower(name);
      assert forall k | 0 <= k < |l| :: l[k] != '.';
      forall j | 0 <= j < |exts| ensures !EndsWith(l, "." + exts[j]) {
        var k := |l| - |exts[j]| - 1;
        if 0 <= k {
          assert l[k..][0] == l[k];
        }
      }
    }
  }

  /** The player the preview dialog picks: the image pattern wins when it matches, and a
      name without '.' always falls through to the page frame. */
  function PreviewKindOf(fileName: string): (r: PreviewKind)
    ensures r == ImagePreview <==> EndsWithExtensionIn(fileName, ImageExtensions)
    ensures '.' !in fileName ==> r == PagePreview
  {
    if EndsWithExtensionIn(fileName, ImageExtensions) then ImagePreview
    else if EndsWithExtensionIn(fileName, VideoExtensions) then VideoPreview
    else if EndsWithExtensionIn(fileName, AudioExtensions) then AudioPreview
    else PagePreview
  }

  /** For dot-free `ext` and `x`, `stem.ext` ends with `.x` exactly when `ext` is `x`. */
  lemma DotSuffix(stem: string, ext: string, x: string)
    requires '.' !in ext && '.' !in x
    ensures EndsWith(stem + "." + ext, "." + x) <==> ext == x
  {
    var l := stem + "." + ext;
    var n := |l|;
    if ext == x {
      assert l[n - |x| - 1..] == "." + x;
    }
    if EndsWith(l, "." + x) {
      var p := n - |x| - 1;
      assert l[p..] == "." + x;
      assert l[p] == '.' by { assert l[p..][0] == l[p]; }
      assert forall i | |stem| < i < n :: l[i] == ext[i - |stem| - 1];
      assert p <= |stem|;
      assert forall i | p < i < n :: l[i] == l[p..][i - p] == x[i - p - 1];
      assert l[|stem|] == '.';
      assert p == |stem|;
      assert l[p..] == "." + ext;
      assert x == ("." + x)[1..] == ("." + ext)[1..] == ext;
    }
  }

  /** A dotted name ends with `.e` for a listed `e` exactly when its extension is listed. */
  lemma EndsWithExtensionInMeansListed(name: string, exts: seq<string>)
    requires '.' in name
    requires forall j :: 0 <= j < |exts| ==> '.' !in exts[j]
    ensures EndsWithExtensionIn(name, exts) <==> Extension(name) in exts
  {
    var stem, ext := LastDot(name);
    LowerAppend(stem + ".", ext);
    LowerAppend(stem, ".");
    assert Lower(".") == ".";
    assert Lower(name) == Lower(stem) + "." + Lower(ext);
    LowerKeepsChar(ext, '.');
    ExtensionOfDottedName(stem, ext);
    if EndsWithExtensionIn(name, exts) {
      var j :| 0 <= j < |exts| && EndsWith(Lower(name), "." + exts[j]);
      DotSuffix(Lower(stem), Lower(ext), exts[j]);
    }
    if Extension(name) in exts {
      var j :| 0 <= j < |exts| && exts[j] == Lower(ext);
      DotSuffix(Lower(stem), Lower(ext), exts[j]);
    }
  }

  /** For a name with a '.', the preview player agrees with the icon for images, video and audio. */
  lemma PreviewAgreesWithIcon(name: string)
    requires '.' in name
    ensures PreviewKindOf(name) == ImagePreview <==> FileIcon(name) == ImageIcon
    ensures PreviewKindOf(name) == VideoPreview <==> FileIcon(name) == VideoIcon
    ensures PreviewKindOf(name) == AudioPreview <==> FileIcon(name) == MusicIcon
  {
    EndsWithExtensionInMeansListed(name, ImageExtensions);
    EndsWithExtensionInMeansListed(name, VideoExtensions);
    EndsWithExtensionInMeansListed(name, AudioExtensions);
  }

  /** A file called just `png` gets the image icon (its whole name is its extension) but
      opens in a page frame, since the pattern needs a '.' before the extension. */
  lemma BareExtensionNameDiverges()
    ensures FileIcon("png") == ImageIcon
    ensures PreviewKindOf("png") == PagePreview
  {
    ExtensionOfUndottedName("png");
    assert Lower("png") == "png";
  }

  /** The path of a child folder: its name at the root, otherwise appended after a '/'. */
  function ChildPath(currentPath: string, name: string): (r: string)
    ensures currentPath == "" ==> r == name
    ensures currentPath != "" ==>
      && |r| == |currentPath| + 1 + |name|
      && r[..|currentPath|] == currentPath && r[|currentPath|] == '/' && r[|currentPath| + 1..] == name
  {
    if currentPath != "" then currentPath + "/" + name else name
  }

  /** `handleOpenFolder(folderName)`'s new path, as the Open menu item computes it. */
  function OpenFolderPath(currentPath: string, folderName: string): (r: string)
    ensures r == ChildPath(currentPath, folderName)
  {
    if currentPath == "" then folderName else currentPath + ['/'] + folderName
  }

  /** Opening a folder whose name is non-empty and slash-free adds exactly that one
      breadcrumb. */
  lemma ChildPathAddsOneCrumb(currentPath: string, name: string)
    requires name != "" && '/' !in name
    ensures Dashboard.Breadcrumbs(ChildPath(currentPath, name)) == Dashboard.Breadcrumbs(currentPath) + [name]
  {
    SplitWithoutSeparator(name, '/');
    if currentPath != "" {
      SplitAppend(currentPath, name, '/');
    }
  }

  /** Opening such a folder and then clicking the breadcrumb before it comes back. */
  lemma OpenThenBackToParent(currentPath: string, name: string)
    requires currentPath != ""
    requires name != "" && '/' !in name
    ensures Dashboard.NavigateToBreadcrumb(ChildPath(currentPath, name), |Dashboard.Breadcrumbs(currentPath)| - 1) == currentPath
  {
    ChildPathAddsOneCrumb(currentPath, name);
    var crumbs := Dashboard.Breadcrumbs(currentPath);
    assert (crumbs + [name])[..|crumbs|] == crumbs;
    Dashboard.BreadcrumbsRoundTrip(currentPath);
  }

  /** What a double-click on a card leads to. */
  datatype GridAction = Navigate(path: string) | Preview(uuid: string, fileName: string) | NoAction

  /** `handleDoubleClick(item)`: folders open, files with an id are previewed, and a file
      without an id does nothing. */
  function DoubleClick(item: FolderItem, currentPath: string): (a: GridAction)
    ensures a.Navigate? <==> item.kind.Folder?
    ensures a.Navigate? ==> a.path == OpenFolderPath(currentPath, item.name)
    ensures a.Preview? <==> item.kind.File? && Truthy(item.uuid)
    ensures a.Preview? ==> a == Preview(item.uuid.value, item.name)
  {
    if item.kind.Folder? then Navigate(ChildPath(currentPath, item.name))
    else if Truthy(item.uuid) then Preview(item.uuid.value, item.name)
    else NoAction
  }

  /** The storage call a delete makes. */
  datatype DeleteCall = DeleteFolderCall(path: string) | DeleteFileCall(uuid: string)

  /** What `handleDelete` did: the call it made, whether it ran `onRefresh`, the toast it showed. */
  datatype DeleteOutcome = DeleteOutcome(call: Option<DeleteCall>, refreshed: bool, toast: Option<Toast>)

  /** The delete call resolves: ok status and a JSON body (the flag says whether it parses). */
  predicate DeleteSucceeded(reply: Reply<bool>) {
    reply.Responded? && IsOk(reply.response.status) && reply.response.body
  }

  /** `handleDelete(item)`: folders are deleted by path, files by id; a file without an id
      makes no call. The grid refreshes unless the call threw. */
  function HandleDelete(item: FolderItem, reply: Reply<bool>): (r: DeleteOutcome)
    ensures item.kind == Folder ==> r.call == Some(DeleteFolderCall(item.path))
    ensures item.kind == File ==> r.call == (if Truthy(item.uuid) then Some(DeleteFileCall(item.uuid.value)) else None)
    ensures r.refreshed <==> r.call == None || DeleteSucceeded(reply)
    ensures r.toast == None <==> r.call == None
    ensures r.toast.Some? ==> (r.toast.value.destructive <==> !r.refreshed)
  {
    var call :=
      if item.kind == Folder then Some(DeleteFolderCall(item.path))
      else if Truthy(item.uuid) then Some(DeleteFileCall(item.uuid.value))
      else None;
    if call == None then DeleteOutcome(None, true, None)
    else if !DeleteSucceeded(reply) then
      DeleteOutcome(call, false, Some(Toast("Delete failed", "Could not delete the item.", true)))
    else if item.kind == Folder then
      DeleteOutcome(call, true, Some(Toast("Folder deleted", item.name + " has been deleted.", false)))
    else
      DeleteOutcome(call, true, Some(Toast("File deleted", item.name + " has been deleted.", false)))
  }

  /** The preview dialog: the object URL shown (open when truthy) and the file's name. */
  datatype PreviewDialog = PreviewDialog(url: Option<string>, fileName: string)

  predicate IsOpen(dialog: PreviewDialog) {
    Truthy(dialog.url)
  }

  /** `handlePreview(uuid, name)`; the reply carries the object URL made from the fetched blob. */
  function HandlePreview(dialog: PreviewDialog, fileName: string, reply: Reply<string>): (r: (PreviewDialog, Option<Toast>))
    ensures reply.Responded? && IsOk(reply.response.status) ==>
      r.0 == PreviewDialog(Some(reply.response.body), fileName) && r.1 == None
    ensures !(reply.Responded? && IsOk(reply.response.status)) ==> r.0 == dialog && r.1.Some? && r.1.value.destructive
  {
    if reply.Responded? && IsOk(reply.response.status) then (PreviewDialog(Some(reply.response.body), fileName), None)
    else (dialog, Some(Toast("Preview failed", "Could not preview this file type.", true)))
  }

  /** `closePreview()`: the dialog closes, and the URL it showed (if any) is revoked. */
  function ClosePreview(dialog: PreviewDialog): (r: (PreviewDialog, Option<string>))
    ensures !IsOpen(r.0) && r.0.fileName == ""
    ensures r.1.Some? <==> IsOpen(dialog)
    ensures r.1.Some? ==> r.1 == dialog.url
  {
    (PreviewDialog(None, ""), if Truthy(dialog.url) then dialog.url else None)
  }
}
