/**
 * `list_files_in_folder` of main.py: the paged listing of a Drive folder. The service is
 * modelled by the responses it gives to successive `files().list` calls; the loop
 * follows `nextPageToken` until a response carries none.
 */
module Drive {
  import opened Wrappers

  /** A listed file: the `id` and `name` fields the listing asks for. */
  datatype DriveFile = DriveFile(id: string, name: string)

  /** One page of the listing. A response without `files` lists no file. */
  datatype ListResponse = ListResponse(files: seq<DriveFile>, nextPageToken: Option<string>)

  /** Some response ends the listing. */
  predicate HasLastPage(rs: seq<ListResponse>)
  {
    exists i :: 0 <= i < |rs| && rs[i].nextPageToken.None?
  }

  /** The position of the first response without a next-page token. */
  function LastPage(rs: seq<ListResponse>): (k: nat)
    requires HasLastPage(rs)
    ensures k < |rs| && rs[k].nextPageToken.None?
    ensures forall j :: 0 <= j < k ==> rs[j].nextPageToken.Some?
  {
    if rs[0].nextPageToken.None? then 0
    else
      assert HasLastPage(rs[1..]) by {
        var i :| 0 <= i < |rs| && rs[i].nextPageToken.None?;
        assert rs[1..][i - 1] == rs[i];
      }
      1 + LastPage(rs[1..])
  }

  /** The files of the given pages, page after page. */
  function FilesOf(rs: seq<ListResponse>): seq<DriveFile>
  {
    if rs == [] then [] else FilesOf(rs[..|rs| - 1]) + rs[|rs| - 1].files
  }

  /** What the listing returns: the files of every page up to and including the last. */
  function ListedFiles(rs: seq<ListResponse>): seq<DriveFile>
    requires HasLastPage(rs)
  {
    FilesOf(rs[..LastPage(rs) + 1])
  }

  /** The `while True` loop: one call per page, until a page has no next token. */
  method ListFilesInFolder(responses: seq<ListResponse>) returns (files: seq<DriveFile>, calls: nat)
    requires HasLastPage(responses)
    ensures files == ListedFiles(responses)
    ensures calls == LastPage(responses) + 1
  {
    files := [];
    calls := 0;
    while true
      invariant calls <= LastPage(responses)
      invariant files == FilesOf(responses[..calls])
      decreases LastPage(responses) - calls
    {
      var response := responses[calls];
      assert responses[..calls + 1][..calls] == responses[..calls];
      files := files + response.files;
      calls := calls + 1;
      if response.nextPageToken.None? {
        return;
      }
    }
  }

  /** The files of consecutive runs of pages are the concatenation of theirs. */
  lemma {:induction false} FilesOfAppend(a: seq<ListResponse>, b: seq<ListResponse>)
    ensures FilesOf(a + b) == FilesOf(a) + FilesOf(b)
    decreases |b|
  {
    if b == [] {
      assert a + b == a;
    } else {
      var b' := b[..|b| - 1];
      assert (a + b)[..|a + b| - 1] == a + b';
      FilesOfAppend(a, b');
    }
  }

  /** A file is listed exactly when it is on a page up to the last one. */
  lemma {:induction false} FilesOfMembers(rs: seq<ListResponse>, f: DriveFile)
    ensures f in FilesOf(rs) <==> exists j :: 0 <= j < |rs| && f in rs[j].files
    decreases |rs|
  {
    if rs != [] {
      var init := rs[..|rs| - 1];
      FilesOfMembers(init, f);
      assert forall j :: 0 <= j < |init| ==> init[j] == rs[j];
    }
  }

  /** Listing membership: a file is returned exactly when some page up to the first one
      without a next token lists it. */
  lemma ListedFilesMembers(rs: seq<ListResponse>, f: DriveFile)
    requires HasLastPage(rs)
    ensures f in ListedFiles(rs) <==> exists j :: 0 <= j <= LastPage(rs) && f in rs[j].files
  {
    var pre := rs[..LastPage(rs) + 1];
    FilesOfMembers(pre, f);
    assert forall j :: 0 <= j < |pre| ==> pre[j] == rs[j];
  }

  /** Responses after the last page are never requested and do not change the listing. */
  lemma PagesAfterLastIgnored(rs: seq<ListResponse>, extra: seq<ListResponse>)
    requires HasLastPage(rs)
    ensures HasLastPage(rs + extra)
    ensures LastPage(rs + extra) == LastPage(rs)
    ensures ListedFiles(rs + extra) == ListedFiles(rs)
  {
    var k := LastPage(rs);
    assert (rs + extra)[k] == rs[k];
    LastPageIsFirst(rs + extra, k);
    assert (rs + extra)[..k + 1] == rs[..k + 1];
  }

  /** The first response without a token is the last page. */
  lemma {:induction false} LastPageIsFirst(rs: seq<ListResponse>, k: nat)
    requires k < |rs| && rs[k].nextPageToken.None?
    requires forall j :: 0 <= j < k ==> rs[j].nextPageToken.Some?
    ensures HasLastPage(rs) && LastPage(rs) == k
    decreases k
  {
    if k > 0 {
      assert forall j :: 0 <= j < k - 1 ==> rs[1..][j] == rs[j + 1];
      LastPageIsFirst(rs[1..], k - 1);
    }
  }
}
