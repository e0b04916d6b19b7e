/** The Apple developer URL helpers: checking the host, turning a page URL
    into its JSON API URL, and reading the API name off the path. URL parsing
    itself is not modelled: a URL comes with the network location and path
    that `urlparse` finds in it. */
module UrlConverter {
  import opened Wrappers
  import opened PyStr
  import opened PySeq
  import opened Constants

  /** A URL's text, with its parsed network location and path. */
  datatype Url = Url(text: string, netloc: string, path: string)

  const DocumentationPrefix := "/documentation/"

  /** `is_valid_apple_developer_url`: the host is exactly the developer site. */
  predicate IsValidAppleDeveloperUrl(u: Url) {
    u.netloc == AppleHost
  }

  /** The path with one leading "/documentation/" removed, or else one leading "/". */
  function DocumentationPath(path: string): (p: string)
    ensures || (StartsWith(path, DocumentationPrefix) && path == DocumentationPrefix + p)
            || (!StartsWith(path, DocumentationPrefix) && StartsWith(path, "/") && path == "/" + p)
            || (!StartsWith(path, "/") && p == path)
  {
    if StartsWith(path, DocumentationPrefix) then path[|DocumentationPrefix|..]
    else if StartsWith(path, "/") then path[1..]
    else path
  }

  /** `convert_to_json_api_url`. */
  function ConvertToJsonApiUrl(u: Url): (r: Option<string>)
    ensures r.None? <==> !IsValidAppleDeveloperUrl(u)
    ensures r.Some? ==> EndsWith(r.value, ".json")
  {
    if !IsValidAppleDeveloperUrl(u) then None
    else if EndsWith(u.text, ".json") then Some(u.text)
    else
      var r := DocumentationJsonBase + DocumentationPath(u.path) + ".json";
      assert r[|r| - 5..] == ".json";
      Some(r)
  }

  /** A documentation page URL maps to the JSON file of the same path under the
      JSON API base; a URL that is already JSON is returned as it is. */
  lemma ConvertDocumentationPage(text: string, p: string)
    ensures var r := ConvertToJsonApiUrl(Url(text, AppleHost, DocumentationPrefix + p));
            r == Some(if EndsWith(text, ".json") then text else DocumentationJsonBase + p + ".json")
  {
    var path := DocumentationPrefix + p;
    assert StartsWith(path, DocumentationPrefix);
    assert path[|DocumentationPrefix|..] == p;
  }

  /** Converting a converted URL again changes nothing. */
  lemma ConvertIdempotent(u: Url, path: string)
    requires ConvertToJsonApiUrl(u).Some?
    ensures ConvertToJsonApiUrl(Url(ConvertToJsonApiUrl(u).value, AppleHost, path)) == ConvertToJsonApiUrl(u)
  {
  }

  // ---------------------------------------------------------------------------
  // extract_api_name_from_url

  function NonEmpty(): string -> bool {
    (s: string) => s != []
  }

  /** The non-empty segments of a path. */
  function Segments(path: string): seq<string> {
    Filter(Split(path, '/'), NonEmpty())
  }

  /** `extract_api_name_from_url`: the last non-empty path segment with every
      ".json" removed, or `None` when the path has no segment. */
  function ExtractApiNameFromUrl(u: Url): Option<string> {
    var parts := Segments(u.path);
    if parts == [] then None else Some(ReplaceAll(parts[|parts| - 1], ".json", ""))
  }

  /** Splitting yields only empty pieces exactly when the string is made of separators. */
  lemma {:induction false} SplitAllEmpty(s: string, c: char)
    ensures (forall k :: 0 <= k < |Split(s, c)| ==> Split(s, c)[k] == []) <==> (forall i :: 0 <= i < |s| ==> s[i] == c)
    decreases |s|
  {
    if s != [] {
      SplitAllEmpty(s[1..], c);
      var rest := Split(s[1..], c);
      if s[0] == c {
        assert StartsWith(s, [c]);
        assert Split(s, c) == [[]] + rest;
        assert (forall k :: 0 <= k < |Split(s, c)| ==> Split(s, c)[k] == []) <==> (forall k :: 0 <= k < |rest| ==> rest[k] == []) by {
          if forall k :: 0 <= k < |rest| ==> rest[k] == [] {
            forall k | 0 <= k < |Split(s, c)| ensures Split(s, c)[k] == [] {
              if k > 0 {
                assert Split(s, c)[k] == rest[k - 1];
              }
            }
          }
          if forall k :: 0 <= k < |Split(s, c)| ==> Split(s, c)[k] == [] {
            forall k | 0 <= k < |rest| ensures rest[k] == [] {
              assert Split(s, c)[k + 1] == rest[k];
            }
          }
        }
        assert (forall i :: 0 <= i < |s| ==> s[i] == c) <==> (forall i :: 0 <= i < |s[1..]| ==> s[1..][i] == c) by {
          if forall i :: 0 <= i < |s[1..]| ==> s[1..][i] == c {
            forall i | 0 <= i < |s| ensures s[i] == c {
              if i > 0 {
                assert s[i] == s[1..][i - 1];
              }
            }
          }
        }
      } else {
        assert !StartsWith(s, [c]);
        assert Split(s, c)[0] == [s[0]] + rest[0];
      }
    }
  }

  /** A string without the separator is one piece. */
  lemma {:induction false} SplitNoSeparator(s: string, c: char)
    requires c !in s
    ensures Split(s, c) == [s]
    decreases |s|
  {
    if s != [] {
      assert s[0] in s;
      assert !StartsWith(s, [c]);
      assert forall x :: x in s[1..] ==> x in s;
      SplitNoSeparator(s[1..], c);
      assert [s[0]] + s[1..] == s;
    }
  }

  /** The text after the last separator is the last piece. */
  lemma {:induction false} SplitLastPiece(a: string, b: string, c: char)
    requires c !in b
    ensures Split(a + [c] + b, c) == Split(a, c) + [b]
    decreases |a|
  {
    var s := a + [c] + b;
    if a == [] {
      assert s == [c] + b;
      assert StartsWith(s, [c]);
      assert s[1..] == b;
      SplitNoSeparator(b, c);
    } else {
      assert s[1..] == a[1..] + [c] + b;
      SplitLastPiece(a[1..], b, c);
      if a[0] == c {
        assert StartsWith(s, [c]) && StartsWith(a, [c]);
      } else {
        assert !StartsWith(s, [c]) && !StartsWith(a, [c]);
      }
    }
  }

  /** No name exactly when the path consists of slashes only. */
  lemma ExtractApiNameNone(u: Url)
    ensures ExtractApiNameFromUrl(u).None? <==> forall i :: 0 <= i < |u.path| ==> u.path[i] == '/'
  {
    var pieces := Split(u.path, '/');
    SplitAllEmpty(u.path, '/');
    if Segments(u.path) == [] {
      forall k | 0 <= k < |pieces| ensures pieces[k] == [] {
        FilterMembers(pieces, NonEmpty(), pieces[k]);
      }
    } else {
      var x := Segments(u.path)[0];
      FilterMembers(pieces, NonEmpty(), x);
    }
  }

  /** A path that ends in a non-empty segment yields that segment, without ".json". */
  lemma ExtractApiNameLast(u: Url, dir: string, name: string)
    requires u.path == dir + "/" + name && name != [] && '/' !in name
    ensures ExtractApiNameFromUrl(u) == Some(ReplaceAll(name, ".json", ""))
  {
    SplitLastPiece(dir, name, '/');
    FilterAppend(Split(dir, '/'), [name], NonEmpty());
  }
}
