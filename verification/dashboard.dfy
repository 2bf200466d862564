/**
 * The dashboard page's path and list logic: breadcrumbs of the current virtual
 * path, navigation back to a breadcrumb, the search filter, and the sequential
 * upload of the files the user picked.
 */
module Dashboard {
  import opened Http
  import opened JsText
  import opened StorageTypes

  /** `getBreadcrumbs()`: none at the root, otherwise the path's '/'-separated segments. */
  function Breadcrumbs(path: string): (r: seq<string>)
    ensures r == [] <==> path == ""
    ensures forall i :: 0 <= i < |r| ==> '/' !in r[i]
  {
    if path == "" then [] else Split(path, '/')
  }

  /** Where `Array.prototype.slice(0, end)` stops on a list of length `len`. */
  function SliceEnd(end: int, len: nat): (e: nat)
    ensures e <= len
  {
    if end < 0 then (if len + end < 0 then 0 else len + end)
    else if end > len then len
    else end
  }

  /** `navigateToBreadcrumb(index)`: the new current path. Following `slice`, an index at or
      past the last breadcrumb keeps the whole path, and an index of -1, or one so negative
      that counting from the end passes the start, leads to the root. */
  function NavigateToBreadcrumb(path: string, index: int): (r: string)
    ensures index >= |Breadcrumbs(path)| - 1 ==> r == path
    ensures index == -1 || index + |Breadcrumbs(path)| < 0 ==> r == ""
  {
    var crumbs := Breadcrumbs(path);
    var end := SliceEnd(index + 1, |crumbs|);
    BreadcrumbsRoundTrip(path);
    assert crumbs[..|crumbs|] == crumbs;
    Join(crumbs[..end], '/')
  }

  /** Rejoining the breadcrumbs gives the current path back. */
  lemma BreadcrumbsRoundTrip(path: string)
    ensures Join(Breadcrumbs(path), '/') == path
  {
    if path != "" {
      JoinSplit(path, '/');
    }
  }

  /** Whatever the index, navigating to a breadcrumb moves to a prefix of the current path. */
  lemma NavigateIsPrefix(path: string, index: int)
    ensures NavigateToBreadcrumb(path, index) <= path
  {
    var crumbs := Breadcrumbs(path);
    JoinPrefix(crumbs, SliceEnd(index + 1, |crumbs|), '/');
    BreadcrumbsRoundTrip(path);
  }

  /** After navigating to breadcrumb `i` of a non-root result, the breadcrumbs shown are the
      first `i + 1` of the old ones. */
  lemma NavigateKeepsLeadingCrumbs(path: string, i: nat)
    requires i < |Breadcrumbs(path)|
    requires NavigateToBreadcrumb(path, i) != ""
    ensures Breadcrumbs(NavigateToBreadcrumb(path, i)) == Breadcrumbs(path)[..i + 1]
  {
    var prefix := Breadcrumbs(path)[..i + 1];
    SplitJoin(prefix, '/');
  }

  /** A path with a leading '/' has an empty first breadcrumb, and navigating to it lands at
      the root, whose breadcrumb list is empty rather than that one empty segment. */
  lemma LeadingSlashFirstCrumbIsRoot(path: string)
    requires |path| > 0 && path[0] == '/'
    ensures Breadcrumbs(path)[0] == ""
    ensures NavigateToBreadcrumb(path, 0) == ""
    ensures Breadcrumbs(NavigateToBreadcrumb(path, 0)) == []
  {
    assert path == "" + ['/'] + path[1..];
    SplitAppend("", path[1..], '/');
  }

  /** The search predicate: the lowercased term occurs somewhere in the lowercased name. */
  predicate Matches(item: FolderItem, term: string)
    ensures Matches(item, term) <==> exists i :: OccursAt(Lower(item.name), Lower(term), i)
  {
    IncludesMeansOccurs(Lower(item.name), Lower(term));
    Includes(Lower(item.name), Lower(term))
  }

  /** `filteredItems`: the listed items the search term selects. */
  function FilterItems(items: seq<FolderItem>, term: string): (r: seq<FolderItem>)
    ensures |r| <= |items|
    ensures forall x :: x in r <==> x in items && Matches(x, term)
  {
    if items == [] then []
    else (if Matches(items[0], term) then [items[0]] else []) + FilterItems(items[1..], term)
  }

  /** Filtering works piecewise, so the kept items stay in their listed order. */
  lemma {:induction false} FilterAppend(a: seq<FolderItem>, b: seq<FolderItem>, term: string)
    ensures FilterItems(a + b, term) == FilterItems(a, term) + FilterItems(b, term)
  {
    if a != [] {
      assert (a + b)[1..] == a[1..] + b;
      FilterAppend(a[1..], b, term);
    } else {
      assert a + b == b;
    }
  }

  /** An empty search term keeps every item. */
  lemma {:induction false} FilterEmptyTermKeepsAll(items: seq<FolderItem>)
    ensures FilterItems(items, "") == items
  {
    if items != [] {
      assert Matches(items[0], "");
      FilterEmptyTermKeepsAll(items[1..]);
    }
  }

  /** Searching twice with the same term changes nothing the second time. */
  lemma {:induction false} FilterIdempotent(items: seq<FolderItem>, term: string)
    ensures FilterItems(FilterItems(items, term), term) == FilterItems(items, term)
  {
    if items != [] {
      var head := if Matches(items[0], term) then [items[0]] else [];
      FilterAppend(head, FilterItems(items[1..], term), term);
      FilterIdempotent(items[1..], term);
      if head != [] {
        assert head[1..] == [];
      }
    }
  }

  /** The upload POST for one picked file: its name and the folder it goes to. */
  datatype UploadAttempt = UploadAttempt(fileName: string, folderPath: string)

  /** What `handleFileUpload` did: uploads attempted in order, toasts shown, and whether it
      reloaded the folder contents and the storage usage afterwards. */
  datatype UploadRun = UploadRun(attempts: seq<UploadAttempt>, toasts: seq<Toast>, reloaded: bool)

  /** `uploadFile` resolves: ok status and a JSON body (the flag says whether it parses). */
  predicate UploadSucceeded(reply: Reply<bool>) {
    reply.Responded? && IsOk(reply.response.status) && reply.response.body
  }

  function UploadToast(fileName: string, succeeded: bool): Toast {
    if succeeded then Toast("Upload successful", fileName + " has been uploaded.", false)
    else Toast("Upload failed", "Failed to upload " + fileName + ".", true)
  }

  /** `handleFileUpload`: every picked file is uploaded to the current folder, one after the
      other and in order, each reporting its own result, so a failed file does not stop
      the ones after it; the folder is reloaded once at the end unless nothing was picked.
      `replies[i]` is the network's answer to the i-th upload. */
  method HandleFileUpload(files: seq<LocalFile>, currentPath: string, replies: seq<Reply<bool>>) returns (run: UploadRun)
    requires |replies| == |files|
    ensures run.reloaded <==> |files| > 0
    ensures |run.attempts| == |files| && |run.toasts| == |files|
    ensures forall i :: 0 <= i < |files| ==>
      && run.attempts[i] == UploadAttempt(files[i].name, currentPath)
      && run.toasts[i] == UploadToast(files[i].name, UploadSucceeded(replies[i]))
  {
    if |files| == 0 {
      return UploadRun([], [], false);
    }
    var attempts: seq<UploadAttempt> := [];
    var toasts: seq<Toast> := [];
    var i := 0;
    while i < |files|
      invariant 0 <= i <= |files|
      invariant |attempts| == i && |toasts| == i
      invariant forall j :: 0 <= j < i ==>
        && attempts[j] == UploadAttempt(files[j].name, currentPath)
        && toasts[j] == UploadToast(files[j].name, UploadSucceeded(replies[j]))
    {
      attempts := attempts + [UploadAttempt(files[i].name, currentPath)];
      toasts := toasts + [UploadToast(files[i].name, UploadSucceeded(replies[i]))];
      i := i + 1;
    }
    run := UploadRun(attempts, toasts, true);
  }
}
