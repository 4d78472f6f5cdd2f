/**
 * The marker-based listing loop `run()` of the `/api/labresults` handler
 * (app.js:127-163). The object store is a scripted source: the n-th
 * `ListObjectsCommand` sent receives the n-th response of the script. Each
 * request is recorded by the marker it carries, and each key logged to the
 * console is appended to the output.
 */
module LabResults {
  import opened Options

  type Key = string

  const Bucket: string := "canna-kool-lab-results"

  /** What one `s3.send` yields: a rejection, or a listing whose `Contents`
      may be absent (S3 leaves it out when a page holds no object). */
  datatype ListObjectsResponse =
    | Failed
    | Listed(contents: Option<seq<Key>>, isTruncated: bool)

  /** `bucketParams`, whose `Marker` the loop overwrites in place. */
  class BucketParams {
    const bucket: string
    var marker: Option<Key>

    constructor (bucket: string)
      ensures this.bucket == bucket && marker == None
    {
      this.bucket := bucket;
      marker := None;
    }
  }

  /** The variables of `run()` between two iterations, plus what has been
      observed so far: the logged keys and the marker of every request sent. */
  datatype Cursor = Cursor(
    truncated: bool,
    pageMarker: Option<Key>,
    marker: Option<Key>,
    logged: seq<Key>,
    sent: seq<Option<Key>>)

  const Initial: Cursor := Cursor(true, None, None, [], [])

  /** A response after which the loop goes round again: a listing with
      `IsTruncated` set whose last object can be read. */
  predicate Continues(resp: ListObjectsResponse)
  {
    resp.Listed? && resp.contents.Some? && resp.isTruncated && resp.contents.value != []
  }

  function LastKey(resp: ListObjectsResponse): Key
    requires Continues(resp)
  {
    resp.contents.value[|resp.contents.value| - 1]
  }

  /** The keys one response prints. */
  function PageKeys(resp: ListObjectsResponse): seq<Key>
  {
    if resp.Listed? && resp.contents.Some? then resp.contents.value else []
  }

  /** The keys a run of responses prints, in order. */
  function Flatten(pages: seq<ListObjectsResponse>): seq<Key>
  {
    if pages == [] then [] else PageKeys(pages[0]) + Flatten(pages[1..])
  }

  /** One pass of the loop body (app.js:144-161), the request carrying the
      current marker. A failed send, an absent `Contents` and a truncated page
      with no object (whose `slice(-1)[0].Key` throws) all end in the catch,
      which clears `truncated`. */
  function Step(c: Cursor, resp: ListObjectsResponse): (r: Cursor)
    ensures r.sent == c.sent + [c.marker]
    ensures r.logged == c.logged + PageKeys(resp)
    ensures r.truncated <==> Continues(resp)
    ensures r.marker == (if Continues(resp) then Some(LastKey(resp)) else c.marker)
    ensures r.pageMarker == (if Continues(resp) then Some(LastKey(resp)) else c.pageMarker)
  {
    var sent := c.sent + [c.marker];
    match resp
    case Failed => c.(truncated := false, sent := sent)
    case Listed(contents, isTruncated) =>
      if contents.None? then c.(truncated := false, sent := sent)
      else
        var keys := contents.value;
        var logged := c.logged + keys;
        if !isTruncated || keys == [] then c.(truncated := false, logged := logged, sent := sent)
        else
          var last := Some(keys[|keys| - 1]);
          c.(truncated := true, pageMarker := last, marker := last, logged := logged, sent := sent)
  }

  /** `while (truncated)` over the scripted responses. */
  function RunSpec(script: seq<ListObjectsResponse>, c: Cursor): (r: Cursor)
    ensures c.sent <= r.sent && c.logged <= r.logged
    ensures c.truncated && script != [] ==> |r.sent| > |c.sent|
    decreases |script|
  {
    if !c.truncated || script == [] then c else RunSpec(script[1..], Step(c, script[0]))
  }

  /** The source eventually answers with a response that ends the loop. */
  predicate HasStop(script: seq<ListObjectsResponse>)
  {
    exists j :: 0 <= j < |script| && !Continues(script[j])
  }

  /** The index of the first response that ends the loop. */
  function FirstStop(script: seq<ListObjectsResponse>): (k: nat)
    requires HasStop(script)
    ensures k < |script| && !Continues(script[k])
    ensures forall j :: 0 <= j < k ==> Continues(script[j])
  {
    if !Continues(script[0]) then 0
    else
      var j :| 0 <= j < |script| && !Continues(script[j]);
      assert script[1..][j - 1] == script[j];
      1 + FirstStop(script[1..])
  }

  lemma FirstStopTail(script: seq<ListObjectsResponse>)
    requires HasStop(script) && Continues(script[0])
    ensures HasStop(script[1..]) && FirstStop(script) == 1 + FirstStop(script[1..])
  {
  }

  /** The loop ends right after the first stopping response, having printed
      the keys of every response up to and including it and sent exactly one
      request per response consumed. */
  lemma {:induction false} RunStopsAtFirstStop(script: seq<ListObjectsResponse>, c: Cursor)
    requires c.truncated && HasStop(script)
    ensures var r := RunSpec(script, c); var k := FirstStop(script);
      !r.truncated &&
      r.logged == c.logged + Flatten(script[..k + 1]) &&
      |r.sent| == |c.sent| + k + 1
  {
    var c' := Step(c, script[0]);
    if Continues(script[0]) {
      FirstStopTail(script);
      RunStopsAtFirstStop(script[1..], c');
      var k := FirstStop(script);
      assert script[..k + 1][1..] == script[1..][..k];
    } else {
      assert script[..1][1..] == [];
    }
  }

  /** The marker a response leaves for the next request to carry. */
  function MarkerAfter(resp: ListObjectsResponse): Option<Key>
  {
    if Continues(resp) then Some(LastKey(resp)) else None
  }

  function NextMarkers(pages: seq<ListObjectsResponse>): seq<Option<Key>>
  {
    if pages == [] then [] else [MarkerAfter(pages[0])] + NextMarkers(pages[1..])
  }

  lemma {:induction false} NextMarkersAt(pages: seq<ListObjectsResponse>, j: nat)
    requires j < |pages| && Continues(pages[j])
    ensures |NextMarkers(pages)| == |pages| && NextMarkers(pages)[j] == Some(LastKey(pages[j]))
  {
    if j > 0 {
      NextMarkersAt(pages[1..], j - 1);
    } else {
      NextMarkersLength(pages);
    }
  }

  lemma {:induction false} NextMarkersLength(pages: seq<ListObjectsResponse>)
    ensures |NextMarkers(pages)| == |pages|
  {
    if pages != [] {
      NextMarkersLength(pages[1..]);
    }
  }

  /** The first request carries the initial marker; every later request
      carries the last key of the page before it. */
  lemma {:induction false} RunRequestsFollowMarkers(script: seq<ListObjectsResponse>, c: Cursor)
    requires c.truncated && HasStop(script)
    ensures RunSpec(script, c).sent == c.sent + [c.marker] + NextMarkers(script[..FirstStop(script)])
  {
    if Continues(script[0]) {
      FirstStopTail(script);
      RunRequestsFollowMarkers(script[1..], Step(c, script[0]));
      var k := FirstStop(script);
      assert script[..k][1..] == script[1..][..k - 1];
    }
  }

  /** When the loop ends, `Marker` (and `pageMarker`) hold the last key of the
      last page that continued, or their initial value if none did: a stopping
      page never sets them, so no stale marker is requested again. */
  lemma {:induction false} RunFinalMarker(script: seq<ListObjectsResponse>, c: Cursor)
    requires c.truncated && HasStop(script)
    ensures var r := RunSpec(script, c); var k := FirstStop(script);
      r.marker == (if k == 0 then c.marker else Some(LastKey(script[k - 1]))) &&
      r.pageMarker == (if k == 0 then c.pageMarker else Some(LastKey(script[k - 1])))
  {
    if Continues(script[0]) {
      FirstStopTail(script);
      RunFinalMarker(script[1..], Step(c, script[0]));
      var k := FirstStop(script);
      if k > 1 {
        assert script[1..][k - 2] == script[k - 1];
      }
    }
  }

  /** `run()` (app.js:137-163) with `bucketParams` built as on app.js:132.
      Returns the keys printed, the marker of each request sent, and the
      final `bucketParams.Marker`. */
  method Run(script: seq<ListObjectsResponse>) returns (logged: seq<Key>, sent: seq<Option<Key>>, marker: Option<Key>)
    requires HasStop(script)
    ensures var k := FirstStop(script);
      logged == Flatten(script[..k + 1]) &&
      sent == [None] + NextMarkers(script[..k]) &&
      marker == (if k == 0 then None else Some(LastKey(script[k - 1])))
  {
    var bucketParams := new BucketParams(Bucket);
    var truncated := true;
    var pageMarker: Option<Key> := None;
    logged, sent := [], [];
    var i := 0;
    while truncated
      invariant 0 <= i <= |script|
      invariant truncated ==> i <= FirstStop(script)
      invariant RunSpec(script[i..], Cursor(truncated, pageMarker, bucketParams.marker, logged, sent))
        == RunSpec(script, Initial)
      decreases |script| - i
    {
      ghost var before := Cursor(truncated, pageMarker, bucketParams.marker, logged, sent);
      var response := script[i];
      sent := sent + [bucketParams.marker];
      match response {
        case Failed =>
          truncated := false;
        case Listed(contents, isTruncated) =>
          if contents.None? {
            truncated := false;
          } else {
            logged := logged + contents.value;
            truncated := isTruncated;
            if truncated {
              if contents.value == [] {
                truncated := false;
              } else {
                pageMarker := Some(contents.value[|contents.value| - 1]);
                bucketParams.marker := pageMarker;
              }
            }
          }
      }
      assert Cursor(truncated, pageMarker, bucketParams.marker, logged, sent) == Step(before, script[i]);
      assert script[i..][1..] == script[i + 1..];
      i := i + 1;
    }
    marker := bucketParams.marker;
    RunStopsAtFirstStop(script, Initial);
    RunRequestsFollowMarkers(script, Initial);
    RunFinalMarker(script, Initial);
  }

  /** Three pages, the last not truncated: every key of the three pages is
      printed in page order, and the second and third requests carry the last
      key of the page before. */
  lemma ThreePages(p1: seq<Key>, p2: seq<Key>, p3: seq<Key>)
    requires p1 != [] && p2 != []
    ensures var script := [Listed(Some(p1), true), Listed(Some(p2), true), Listed(Some(p3), false)];
      var r := RunSpec(script, Initial);
      !r.truncated && r.logged == p1 + p2 + p3 &&
      r.sent == [None, Some(p1[|p1| - 1]), Some(p2[|p2| - 1])]
  {
    var script := [Listed(Some(p1), true), Listed(Some(p2), true), Listed(Some(p3), false)];
    var c1 := Step(Initial, script[0]);
    var c2 := Step(c1, script[1]);
    var c3 := Step(c2, script[2]);
    assert script[1..][1..][1..] == [];
    assert RunSpec(script[1..][1..], c2) == c3;
    assert RunSpec(script[1..], c1) == c3;
    assert RunSpec(script, Initial) == c3;
    assert c3.logged == [] + p1 + p2 + p3;
  }

  /** A failure on the second page leaves exactly the first page's keys. */
  lemma SecondPageFails(p1: seq<Key>, rest: seq<ListObjectsResponse>)
    requires p1 != []
    ensures var r := RunSpec([Listed(Some(p1), true), Failed] + rest, Initial);
      !r.truncated && r.logged == p1 && |r.sent| == 2
  {
    var script := [Listed(Some(p1), true), Failed] + rest;
    var c1 := Step(Initial, script[0]);
    var c2 := Step(c1, script[1]);
    assert RunSpec(script[1..], c1) == RunSpec(script[1..][1..], c2) == c2;
    assert c2.logged == [] + p1;
  }

  /** A truncated page with no object ends the loop instead of sending the
      same marker again. */
  lemma EmptyTruncatedPageStops(rest: seq<ListObjectsResponse>, c: Cursor)
    requires c.truncated
    ensures var r := RunSpec([Listed(Some([]), true)] + rest, c);
      !r.truncated && r.sent == c.sent + [c.marker] && r.marker == c.marker
  {
  }
}
