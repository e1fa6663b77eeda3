/** The composite string ids of the blackboard graph. A resource id is the tool id, the group url
    and the resource url with "##" between them. */
module ResourceIds {
  import opened Refs
  import opened Text

  const ABS_PATH_SUFFIX := "##"

  datatype IdError = Unparseable(text: string)

  function FullResourceId(r: ResourceRef): string {
    r.toolId + ABS_PATH_SUFFIX + r.groupUrl + ABS_PATH_SUFFIX + r.url
  }

  function FullResourceGroupId(toolId: string, url: string): string {
    toolId + ABS_PATH_SUFFIX + url
  }

  function ParseAbsoluteUrl(url: string): Result<ResourceRef, IdError> {
    var pieces := Split(url, ABS_PATH_SUFFIX);
    if |pieces| != 3 then Err(Unparseable(url))
    else Ok(ResourceRef(pieces[0], pieces[1], pieces[2]))
  }

  function ResourceGroupIdFromId(id: string): Result<string, IdError> {
    var pieces := Split(id, ABS_PATH_SUFFIX);
    if |pieces| == 2 then Ok(id)
    else if |pieces| == 3 then Ok(pieces[0] + ABS_PATH_SUFFIX + pieces[1])
    else Err(Unparseable(id))
  }

  // ----- Which resources the ids can name -----

  ghost predicate HasMarker(s: string) {
    exists i :: 0 <= i < |s| - 1 && s[i] == '#' && s[i + 1] == '#'
  }

  ghost predicate EndsInHash(s: string) { s != "" && s[|s| - 1] == '#' }

  /** No part holds "##", and the two parts that a "##" follows do not end in '#'. */
  ghost predicate Addressable(r: ResourceRef) {
    && !HasMarker(r.toolId) && !EndsInHash(r.toolId)
    && !HasMarker(r.groupUrl) && !EndsInHash(r.groupUrl)
    && !HasMarker(r.url)
  }

  lemma MarkerAt(s: string, k: nat)
    requires k <= |s|
    ensures ABS_PATH_SUFFIX <= s[k..] <==> k + 1 < |s| && s[k] == '#' && s[k + 1] == '#'
  {
    if k + 1 < |s| {
      assert s[k..][..2] == [s[k], s[k + 1]];
    }
  }

  lemma FreeOfMarker(s: string)
    ensures Free(s, ABS_PATH_SUFFIX) <==> !HasMarker(s)
  {
    if HasMarker(s) {
      var i :| 0 <= i < |s| - 1 && s[i] == '#' && s[i + 1] == '#';
      MarkerAt(s, i);
      assert ABS_PATH_SUFFIX <= s[i..];
    } else {
      forall k | 0 <= k <= |s| ensures !(ABS_PATH_SUFFIX <= s[k..]) {
        MarkerAt(s, k);
      }
    }
  }

  lemma DelimitedByMarker(s: string)
    ensures Delimited(s, ABS_PATH_SUFFIX) <==> !HasMarker(s) && !EndsInHash(s)
  {
    var t := s + ABS_PATH_SUFFIX;
    if EndsInHash(s) {
      MarkerAt(t, |s| - 1);
      assert ABS_PATH_SUFFIX <= t[|s| - 1..];
    } else if HasMarker(s) {
      var i :| 0 <= i < |s| - 1 && s[i] == '#' && s[i + 1] == '#';
      MarkerAt(t, i);
      assert ABS_PATH_SUFFIX <= t[i..];
    } else {
      forall k | 0 <= k < |s| ensures !(ABS_PATH_SUFFIX <= t[k..]) {
        MarkerAt(t, k);
        assert t[k] == s[k];
        assert k + 1 < |s| ==> t[k + 1] == s[k + 1];
      }
    }
  }

  lemma FullIdIsJoin(r: ResourceRef)
    ensures FullResourceId(r) == Join([r.toolId, r.groupUrl, r.url], ABS_PATH_SUFFIX)
    ensures Separable([r.toolId, r.groupUrl, r.url], ABS_PATH_SUFFIX) <==> Addressable(r)
  {
    var pieces := [r.toolId, r.groupUrl, r.url];
    assert pieces[1..] == [r.groupUrl, r.url];
    assert pieces[1..][1..] == [r.url];
    var tail := r.groupUrl + ABS_PATH_SUFFIX + r.url;
    assert FullResourceId(r) == r.toolId + ABS_PATH_SUFFIX + tail;
    assert Join(pieces[1..], ABS_PATH_SUFFIX) == tail;
    DelimitedByMarker(r.toolId);
    DelimitedByMarker(r.groupUrl);
    FreeOfMarker(r.url);
    assert pieces[0] == r.toolId && pieces[1] == r.groupUrl && pieces[2] == r.url;
  }

  /** Parsing undoes printing for the addressable resources and for no others. */
  lemma ParseUndoesFullId(r: ResourceRef)
    ensures ParseAbsoluteUrl(FullResourceId(r)) == Ok(r) <==> Addressable(r)
  {
    var pieces := [r.toolId, r.groupUrl, r.url];
    FullIdIsJoin(r);
    SplitJoinExactly(pieces, ABS_PATH_SUFFIX);
    var split := Split(FullResourceId(r), ABS_PATH_SUFFIX);
    if |split| == 3 {
      assert split == [split[0], split[1], split[2]];
    }
  }

  /** Whatever parses is printed back unchanged. */
  lemma FullIdUndoesParse(id: string)
    requires ParseAbsoluteUrl(id).Ok?
    ensures FullResourceId(ParseAbsoluteUrl(id).value) == id
  {
    var pieces := Split(id, ABS_PATH_SUFFIX);
    JoinSplit(id, ABS_PATH_SUFFIX);
    assert pieces == [pieces[0], pieces[1], pieces[2]];
    FullIdIsJoin(ParseAbsoluteUrl(id).value);
  }

  // ----- Which resources share their id with no other -----

  ghost predicate StartsWithHash(s: string) { s != "" && s[0] == '#' }

  ghost predicate MarkerIn(id: string, k: int) {
    0 <= k < |id| - 1 && id[k] == '#' && id[k + 1] == '#'
  }

  lemma IdAt(r: ResourceRef, k: nat)
    requires k < |FullResourceId(r)|
    ensures var p, q := |r.toolId|, |r.toolId| + 2 + |r.groupUrl|;
            FullResourceId(r)[k] == if k < p then r.toolId[k] else if k < p + 2 then '#'
                                    else if k < q then r.groupUrl[k - p - 2] else if k < q + 2 then '#'
                                    else r.url[k - q - 2]
  {
  }

  /** The markers of an id are the two between its parts, and, if there is nothing between those, the
      one astride them. */
  lemma MarkersOfId(r: ResourceRef, k: int)
    requires Addressable(r) && !StartsWithHash(r.groupUrl) && !StartsWithHash(r.url)
    requires MarkerIn(FullResourceId(r), k)
    ensures var p, q := |r.toolId|, |r.toolId| + 2 + |r.groupUrl|;
            k == p || k == q || (r.groupUrl == "" && k == p + 1)
  {
    IdAt(r, k);
    IdAt(r, k + 1);
  }

  /** Where the two markers of an id stand tells the parts. */
  lemma PartsFromPlaces(r: ResourceRef, r': ResourceRef)
    requires FullResourceId(r) == FullResourceId(r')
    requires |r.toolId| == |r'.toolId| && |r.groupUrl| == |r'.groupUrl|
    ensures r == r'
  {
    var id := FullResourceId(r);
    var p, q := |r.toolId|, |r.toolId| + 2 + |r.groupUrl|;
    assert r.toolId == id[..p] == r'.toolId;
    assert r.groupUrl == id[p + 2..q] == r'.groupUrl;
    assert r.url == id[q + 2..] == r'.url;
  }

  lemma PlacesOfMarkers(r: ResourceRef)
    ensures MarkerIn(FullResourceId(r), |r.toolId|)
    ensures MarkerIn(FullResourceId(r), |r.toolId| + 2 + |r.groupUrl|)
  {
  }

  lemma OwnIdIsUnshared(r: ResourceRef, r': ResourceRef)
    requires Addressable(r) && !StartsWithHash(r.groupUrl) && !StartsWithHash(r.url)
    requires FullResourceId(r') == FullResourceId(r)
    ensures r' == r
  {
    PlacesOfMarkers(r');
    MarkersOfId(r, |r'.toolId|);
    MarkersOfId(r, |r'.toolId| + 2 + |r'.groupUrl|);
    PartsFromPlaces(r, r');
  }

  /** A text with a marker, cut in two there. */
  lemma CutAtMarker(s: string) returns (a: string, b: string)
    requires HasMarker(s)
    ensures s == a + ABS_PATH_SUFFIX + b
  {
    var i :| 0 <= i < |s| - 1 && s[i] == '#' && s[i + 1] == '#';
    a, b := s[..i], s[i + 2..];
  }

  /** A marker within a part can be taken for the one beside the part. */
  lemma MarkerTaken(a: string, b: string, c: string, d: string)
    ensures FullResourceId(ResourceRef(a + ABS_PATH_SUFFIX + b, c, d))
         == FullResourceId(ResourceRef(a, b, c + ABS_PATH_SUFFIX + d))
    ensures FullResourceId(ResourceRef(a, b + ABS_PATH_SUFFIX + c, d))
         == FullResourceId(ResourceRef(a, b, c + ABS_PATH_SUFFIX + d))
  {
    var tail := c + ABS_PATH_SUFFIX + d;
    assert b + ABS_PATH_SUFFIX + c + ABS_PATH_SUFFIX + d == b + ABS_PATH_SUFFIX + tail;
    assert a + ABS_PATH_SUFFIX + b + ABS_PATH_SUFFIX + tail == a + ABS_PATH_SUFFIX + (b + ABS_PATH_SUFFIX + tail);
  }

  /** A hash beside a marker can belong to the part before or to the part after. */
  lemma HashTaken(a: string, b: string, c: string)
    ensures FullResourceId(ResourceRef(a + "#", b, c)) == FullResourceId(ResourceRef(a, "#" + b, c))
    ensures FullResourceId(ResourceRef(a, b + "#", c)) == FullResourceId(ResourceRef(a, b, "#" + c))
  {
    assert "#" + ABS_PATH_SUFFIX == ABS_PATH_SUFFIX + "#";
    assert a + "#" + ABS_PATH_SUFFIX + b == a + ABS_PATH_SUFFIX + ("#" + b);
    assert b + "#" + ABS_PATH_SUFFIX + c == b + ABS_PATH_SUFFIX + ("#" + c);
    var before := a + ABS_PATH_SUFFIX;
    assert before + (b + "#") + ABS_PATH_SUFFIX + c == before + (b + "#" + ABS_PATH_SUFFIX + c);
    assert before + b + ABS_PATH_SUFFIX + ("#" + c) == before + (b + ABS_PATH_SUFFIX + ("#" + c));
  }

  lemma OtherByMarker(r: ResourceRef) returns (r': ResourceRef)
    requires HasMarker(r.toolId) || HasMarker(r.groupUrl) || HasMarker(r.url)
    ensures r' != r && FullResourceId(r') == FullResourceId(r)
  {
    if HasMarker(r.toolId) {
      var a, b := CutAtMarker(r.toolId);
      r' := ResourceRef(a, b, r.groupUrl + ABS_PATH_SUFFIX + r.url);
      MarkerTaken(a, b, r.groupUrl, r.url);
      assert |r'.toolId| != |r.toolId|;
    } else if HasMarker(r.groupUrl) {
      var a, b := CutAtMarker(r.groupUrl);
      r' := ResourceRef(r.toolId, a, b + ABS_PATH_SUFFIX + r.url);
      MarkerTaken(r.toolId, a, b, r.url);
      assert |r'.groupUrl| != |r.groupUrl|;
    } else {
      var a, b := CutAtMarker(r.url);
      r' := ResourceRef(r.toolId, r.groupUrl + ABS_PATH_SUFFIX + a, b);
      MarkerTaken(r.toolId, r.groupUrl, a, b);
      assert |r'.groupUrl| != |r.groupUrl|;
    }
  }

  lemma OtherByHash(r: ResourceRef) returns (r': ResourceRef)
    requires || EndsInHash(r.toolId) || StartsWithHash(r.groupUrl)
             || EndsInHash(r.groupUrl) || StartsWithHash(r.url)
    ensures r' != r && FullResourceId(r') == FullResourceId(r)
  {
    var t, g, u := r.toolId, r.groupUrl, r.url;
    if EndsInHash(t) {
      r' := ResourceRef(t[..|t| - 1], "#" + g, u);
      HashTaken(t[..|t| - 1], g, u);
      assert t == t[..|t| - 1] + "#" && |r'.toolId| != |t|;
    } else if StartsWithHash(g) {
      r' := ResourceRef(t + "#", g[1..], u);
      HashTaken(t, g[1..], u);
      assert g == "#" + g[1..] && |r'.toolId| != |t|;
    } else if EndsInHash(g) {
      r' := ResourceRef(t, g[..|g| - 1], "#" + u);
      HashTaken(t, g[..|g| - 1], u);
      assert g == g[..|g| - 1] + "#" && |r'.groupUrl| != |g|;
    } else {
      r' := ResourceRef(t, g + "#", u[1..]);
      HashTaken(t, g, u[1..]);
      assert u == "#" + u[1..] && |r'.groupUrl| != |g|;
    }
  }

  /** A resource shares its id with no other exactly if it is addressable and the two parts that
      follow a "##" do not start with '#'. */
  lemma IdIsOwnExactly(r: ResourceRef)
    ensures (forall r' :: FullResourceId(r') == FullResourceId(r) ==> r' == r)
       <==> Addressable(r) && !StartsWithHash(r.groupUrl) && !StartsWithHash(r.url)
  {
    if Addressable(r) && !StartsWithHash(r.groupUrl) && !StartsWithHash(r.url) {
      forall r' | FullResourceId(r') == FullResourceId(r) ensures r' == r {
        OwnIdIsUnshared(r, r');
      }
    } else if HasMarker(r.toolId) || HasMarker(r.groupUrl) || HasMarker(r.url) {
      var r' := OtherByMarker(r);
    } else {
      var r' := OtherByHash(r);
    }
  }

  /** Being addressable is enough among addressable resources. */
  lemma SameIdIsSameResource(r1: ResourceRef, r2: ResourceRef)
    requires Addressable(r1) && Addressable(r2)
    ensures FullResourceId(r1) == FullResourceId(r2) <==> r1 == r2
  {
    ParseUndoesFullId(r1);
    ParseUndoesFullId(r2);
  }

  /** It is not enough beyond them: an addressable resource and another share an id. */
  lemma IdsCanClash()
    ensures var r1, r2 := ResourceRef("git#", "repo", "a"), ResourceRef("git", "#repo", "a");
            r1 != r2 && FullResourceId(r1) == FullResourceId(r2) && Addressable(r2)
  {
    assert "git#" + "##" + "repo" == "git" + "##" + "#repo";
    assert !HasMarker("git") && !EndsInHash("git") && !HasMarker("#repo") && !EndsInHash("#repo") && !HasMarker("a");
  }

  /** The id of an addressable resource leads to the id of its group. */
  lemma GroupOfResourceId(r: ResourceRef)
    requires Addressable(r)
    ensures ResourceGroupIdFromId(FullResourceId(r)) == Ok(FullResourceGroupId(r.toolId, r.groupUrl))
  {
    FullIdIsJoin(r);
    SplitJoinExactly([r.toolId, r.groupUrl, r.url], ABS_PATH_SUFFIX);
  }

  ghost predicate IsGroupId(id: string, toolId: string, url: string) {
    && id == FullResourceGroupId(toolId, url)
    && !HasMarker(toolId) && !EndsInHash(toolId) && !HasMarker(url)
  }

  lemma GroupIdIsJoin(toolId: string, url: string)
    ensures FullResourceGroupId(toolId, url) == Join([toolId, url], ABS_PATH_SUFFIX)
    ensures Separable([toolId, url], ABS_PATH_SUFFIX) <==> !HasMarker(toolId) && !EndsInHash(toolId) && !HasMarker(url)
  {
    var group := [toolId, url];
    assert group[1..] == [url];
    DelimitedByMarker(toolId);
    FreeOfMarker(url);
    assert group[0] == toolId && group[1] == url;
  }

  lemma IdInThreePieces(a: string, b: string, c: string)
    ensures Join([a, b, c], ABS_PATH_SUFFIX) != a + ABS_PATH_SUFFIX + b
  {
    FullIdIsJoin(ResourceRef(a, b, c));
    assert |FullResourceId(ResourceRef(a, b, c))| > |a + ABS_PATH_SUFFIX + b|;
  }

  /** An id leads to itself exactly if it is the id of a group with no marker in a part and no hash at
      the end of the tool id. */
  lemma GroupIdIsItsOwn(id: string)
    ensures ResourceGroupIdFromId(id) == Ok(id) <==> exists toolId, url :: IsGroupId(id, toolId, url)
  {
    var pieces := Split(id, ABS_PATH_SUFFIX);
    SplitSeparable(id, ABS_PATH_SUFFIX);
    if |pieces| == 2 {
      assert pieces == [pieces[0], pieces[1]];
      GroupIdIsJoin(pieces[0], pieces[1]);
      assert IsGroupId(id, pieces[0], pieces[1]);
    } else {
      if |pieces| == 3 {
        assert pieces == [pieces[0], pieces[1], pieces[2]];
        IdInThreePieces(pieces[0], pieces[1], pieces[2]);
      }
      if toolId, url :| IsGroupId(id, toolId, url) {
        GroupIdIsJoin(toolId, url);
        SplitJoin([toolId, url], ABS_PATH_SUFFIX);
      }
    }
  }
}
