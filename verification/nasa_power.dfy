/** The request URL of the NASA POWER hourly point API: the fixed endpoint
    followed by one `key=value` fragment per parameter whose value is not
    empty. The request itself, its JSON decoding and the interactive prompts
    are not part of this model. */
module NasaPower {

  /** The endpoint every request URL starts with. */
  const Base: string := "https://power.larc.nasa.gov/api/temporal/hourly/point?"

  datatype Result<T> = Success(value: T) | Failure(error: string)

  /** One request parameter: its key and its value, both as text. */
  type Parameter = (string, string)

  /** The fragment the builder appends for one parameter. */
  function Fragment(p: Parameter): (r: string)
    ensures |r| == |p.0| + |p.1| + 2 && r[0] == '&'
  {
    "&" + p.0 + "=" + p.1
  }

  /** The fragments appended after the endpoint: one per parameter whose value
      is not empty, in the order of the parameters. */
  function Fragments(params: seq<Parameter>): (r: seq<string>)
    ensures |r| <= |params|
  {
    if params == [] then []
    else
      var last := params[|params| - 1];
      Fragments(params[..|params| - 1]) + if last.1 != "" then [Fragment(last)] else []
  }

  /** `s.replace("&", "")`: the text with every `&` removed. */
  function WithoutAmpersands(s: string): (r: string)
    ensures |r| <= |s|
  {
    if s == [] then []
    else (if s[0] == '&' then [] else [s[0]]) + WithoutAmpersands(s[1..])
  }

  /** `"".join(parts)`. */
  function Concat(parts: seq<string>): (r: string)
    ensures parts != [] ==> parts[0] <= r
  {
    if parts == [] then "" else parts[0] + Concat(parts[1..])
  }

  /** The outcome of building the URL: the endpoint, the first fragment with
      its `&` characters removed, and the remaining fragments as they are. When
      no parameter has a value there is no first fragment and the builder fails
      (its `url[1]` is out of range). */
  function QueryUrl(params: seq<Parameter>): (r: Result<string>)
    ensures r.Failure? <==> Fragments(params) == []
    ensures r.Success? ==> Base <= r.value
  {
    var fragments := Fragments(params);
    if fragments == [] then Failure("IndexError: list index out of range")
    else Success(Base + WithoutAmpersands(fragments[0]) + Concat(fragments[1..]))
  }

  /** The URL assembly of `nasa_power_api`: a list that starts with the
      endpoint grows by one fragment per non-empty parameter, its second entry
      loses its `&` characters, and the list is joined. */
  method BuildUrl(params: seq<Parameter>) returns (r: Result<string>)
    ensures r == QueryUrl(params)
  {
    var url := [Base];
    for i := 0 to |params|
      invariant url == [Base] + Fragments(params[..i])
    {
      var (key, value) := params[i];
      assert params[..i + 1][..i] == params[..i];
      if value != "" {
        url := url + ["&" + key + "=" + value];
      }
    }
    assert params[..|params|] == params;
    ghost var fragments := Fragments(params);
    if |url| < 2 {
      assert fragments == [];
      return Failure("IndexError: list index out of range");
    }
    url := url[1 := WithoutAmpersands(url[1])];
    assert url == [Base, WithoutAmpersands(fragments[0])] + fragments[1..];
    assert url[1..][1..] == fragments[1..];
    assert Concat(url[1..]) == WithoutAmpersands(fragments[0]) + Concat(fragments[1..]);
    assert Concat(url) == Base + Concat(url[1..]);
    assert Base + WithoutAmpersands(fragments[0]) + Concat(fragments[1..])
        == Base + (WithoutAmpersands(fragments[0]) + Concat(fragments[1..]));
    r := Success(Concat(url));
  }

  /** No fragment at all exactly when every parameter value is empty. */
  lemma {:induction false} NoFragmentsIffNoValue(params: seq<Parameter>)
    ensures Fragments(params) == [] <==> forall i :: 0 <= i < |params| ==> params[i].1 == ""
  {
    if params != [] {
      var n := |params| - 1;
      NoFragmentsIffNoValue(params[..n]);
      assert forall i :: 0 <= i < n ==> params[..n][i] == params[i];
    }
  }

  /** The builder fails exactly when every parameter value is empty. */
  lemma FailsIffNoValue(params: seq<Parameter>)
    ensures QueryUrl(params).Failure? <==> forall i :: 0 <= i < |params| ==> params[i].1 == ""
  {
    NoFragmentsIffNoValue(params);
  }

  /** The fragments of two runs of parameters are those of the first run
      followed by those of the second: the URL keeps the parameters' order. */
  lemma {:induction false} FragmentsAppend(a: seq<Parameter>, b: seq<Parameter>)
    ensures Fragments(a + b) == Fragments(a) + Fragments(b)
  {
    if b == [] {
      assert a + b == a;
    } else {
      var n := |b| - 1;
      FragmentsAppend(a, b[..n]);
      assert (a + b)[..|a + b| - 1] == a + b[..n];
      assert (a + b)[|a + b| - 1] == b[n];
    }
  }

  /** A single parameter contributes its fragment exactly when its value is not
      empty. */
  lemma FragmentsOfOne(p: Parameter)
    ensures Fragments([p]) == if p.1 != "" then [Fragment(p)] else []
  {
    assert [p][..0] == [];
  }

  /** Parameters without a value before the first one that has a value add
      nothing: that parameter gives the first fragment. */
  lemma FragmentsSkipEmpty(params: seq<Parameter>, i: nat)
    requires i < |params| && params[i].1 != ""
    requires forall j :: 0 <= j < i ==> params[j].1 == ""
    ensures Fragments(params) == [Fragment(params[i])] + Fragments(params[i + 1..])
  {
    var before, rest := params[..i], params[i + 1..];
    SplitAt(params, i);
    EmptyBefore(params, i);
    FragmentsOfOne(params[i]);
    FragmentsAppend(before, [params[i]]);
    FragmentsAppend(before + [params[i]], rest);
  }

  lemma SplitAt<T>(s: seq<T>, i: nat)
    requires i < |s|
    ensures s == s[..i] + [s[i]] + s[i + 1..]
  {
  }

  /** Parameters without a value contribute no fragment. */
  lemma EmptyBefore(params: seq<Parameter>, i: nat)
    requires i <= |params|
    requires forall j :: 0 <= j < i ==> params[j].1 == ""
    ensures Fragments(params[..i]) == []
  {
    NoFragmentsIffNoValue(params[..i]);
  }

  /** Removing `&` from a concatenation removes it from each part. */
  lemma {:induction false} WithoutAmpersandsAppend(s: string, t: string)
    ensures WithoutAmpersands(s + t) == WithoutAmpersands(s) + WithoutAmpersands(t)
  {
    if s == [] {
      assert s + t == t;
    } else {
      var head := if s[0] == '&' then "" else [s[0]];
      WithoutAmpersandsAppend(s[1..], t);
      assert (s + t)[1..] == s[1..] + t;
      assert (s + t)[0] == s[0];
      assert WithoutAmpersands(s + t) == head + WithoutAmpersands(s[1..] + t);
      assert WithoutAmpersands(s) == head + WithoutAmpersands(s[1..]);
      assert head + (WithoutAmpersands(s[1..]) + WithoutAmpersands(t))
          == (head + WithoutAmpersands(s[1..])) + WithoutAmpersands(t);
    }
  }

  /** No `&` is left. */
  lemma {:induction false} NoAmpersandLeft(s: string)
    ensures forall k :: 0 <= k < |WithoutAmpersands(s)| ==> WithoutAmpersands(s)[k] != '&'
  {
    if s != [] {
      NoAmpersandLeft(s[1..]);
      var head := if s[0] == '&' then "" else [s[0]];
      var r, rest := WithoutAmpersands(s), WithoutAmpersands(s[1..]);
      assert r == head + rest;
      forall k | 0 <= k < |r|
        ensures r[k] != '&'
      {
        if k >= |head| {
          assert r[k] == rest[k - |head|];
        }
      }
    }
  }

  /** Text without `&` is left as it is. */
  lemma {:induction false} WithoutAmpersandsIdentity(s: string)
    requires forall k :: 0 <= k < |s| ==> s[k] != '&'
    ensures WithoutAmpersands(s) == s
  {
    if s != [] {
      WithoutAmpersandsIdentity(s[1..]);
    }
  }

  /** The first fragment loses the `&` in front of it and every `&` of its key
      and of its value. */
  lemma StrippedFragment(p: Parameter)
    ensures WithoutAmpersands(Fragment(p)) == WithoutAmpersands(p.0) + "=" + WithoutAmpersands(p.1)
  {
    WithoutAmpersandsAppend("&" + p.0 + "=", p.1);
    WithoutAmpersandsAppend("&" + p.0, "=");
    WithoutAmpersandsAppend("&", p.0);
    assert WithoutAmpersands("&") == "";
    assert WithoutAmpersands("=") == "=";
  }

  /** The first parameter with a value appears as `key=value` right after the
      `?`, with every `&` of its key and of its value removed, and the
      fragments of the parameters after it follow unchanged. */
  lemma FirstFragment(params: seq<Parameter>, i: nat)
    requires i < |params| && params[i].1 != ""
    requires forall j :: 0 <= j < i ==> params[j].1 == ""
    ensures QueryUrl(params) == Success(Base + WithoutAmpersands(params[i].0) + "=" + WithoutAmpersands(params[i].1)
                                        + Concat(Fragments(params[i + 1..])))
  {
    FragmentsSkipEmpty(params, i);
    StrippedFragment(params[i]);
    var fragments, rest := Fragments(params), Fragments(params[i + 1..]);
    assert fragments[0] == Fragment(params[i]) && fragments[1..] == rest;
    var key, value := WithoutAmpersands(params[i].0), WithoutAmpersands(params[i].1);
    Regroup(Base, key, "=", value, Concat(rest));
  }

  lemma Regroup(a: string, b: string, c: string, d: string, e: string)
    ensures a + (b + c + d) + e == a + b + c + d + e
  {
  }

  /** Every fragment comes from a parameter that has a value. */
  lemma {:induction false} FragmentSource(params: seq<Parameter>, k: nat)
    requires k < |Fragments(params)|
    ensures exists j :: 0 <= j < |params| && params[j].1 != "" && Fragments(params)[k] == Fragment(params[j])
  {
    var n := |params| - 1;
    var prefix := params[..n];
    var f, earlier := Fragments(params), Fragments(prefix);
    if k < |earlier| {
      FragmentSource(prefix, k);
      var j :| 0 <= j < |prefix| && prefix[j].1 != "" && earlier[k] == Fragment(prefix[j]);
      assert params[j] == prefix[j] && f[k] == earlier[k];
    } else {
      assert f[k] == Fragment(params[n]);
    }
  }

  /** Every fragment, and so every one after the first, which the URL keeps
      as it is, starts with `&` and holds `key=value` of a parameter with a
      value. */
  lemma FragmentShape(params: seq<Parameter>, k: nat)
    requires k < |Fragments(params)|
    ensures |Fragments(params)[k]| > 0 && Fragments(params)[k][0] == '&'
    ensures exists j :: 0 <= j < |params| && params[j].1 != "" && Fragments(params)[k][1..] == params[j].0 + "=" + params[j].1
  {
    FragmentSource(params, k);
    var j :| 0 <= j < |params| && params[j].1 != "" && Fragments(params)[k] == Fragment(params[j]);
    assert Fragment(params[j]) == "&" + (params[j].0 + "=" + params[j].1);
  }

  /** Every parameter that has a value gives a fragment. */
  lemma {:induction false} ValueGivesFragment(params: seq<Parameter>, j: nat)
    requires j < |params| && params[j].1 != ""
    ensures Fragment(params[j]) in Fragments(params)
  {
    var n := |params| - 1;
    var prefix := params[..n];
    var f, earlier := Fragments(params), Fragments(prefix);
    if j < n {
      ValueGivesFragment(prefix, j);
      assert params[j] == prefix[j];
      var k :| 0 <= k < |earlier| && earlier[k] == Fragment(prefix[j]);
      assert f[k] == earlier[k];
    } else {
      assert f[|f| - 1] == Fragment(params[n]);
    }
  }

  /** A successful URL never has `&` right after the `?`. */
  lemma NoAmpersandAfterQuery(params: seq<Parameter>)
    requires QueryUrl(params).Success?
    ensures |QueryUrl(params).value| > |Base| && QueryUrl(params).value[|Base|] != '&'
  {
    var fragments := Fragments(params);
    FragmentSource(params, 0);
    var j :| 0 <= j < |params| && params[j].1 != "" && fragments[0] == Fragment(params[j]);
    StrippedFragment(params[j]);
    var key, first := WithoutAmpersands(params[j].0), WithoutAmpersands(fragments[0]);
    var url := QueryUrl(params).value;
    assert url == Base + first + Concat(fragments[1..]);
    if key == [] {
      assert first[0] == '=';
    } else {
      NoAmpersandLeft(params[j].0);
      assert first[0] == key[0];
    }
    assert url[|Base|] == first[0];
  }

  /** A concrete instance of the quirk: an `&` inside the first value is
      dropped from the URL. */
  lemma AmpersandInFirstValueDropped()
    ensures QueryUrl([("a", "x&y")]) == Success(Base + "a=xy")
  {
    var p := ("a", "x&y");
    FragmentsOfOne(p);
    var fragments := Fragments([p]);
    assert fragments[0] == Fragment(p) && fragments[1..] == [];
    StrippedFragment(p);
    WithoutAmpersandsIdentity("a");
    WithoutAmpersandsIdentity("x");
    WithoutAmpersandsIdentity("y");
    assert "x&y" == "x" + ("&" + "y");
    WithoutAmpersandsAppend("x", "&" + "y");
    WithoutAmpersandsAppend("&", "y");
    assert WithoutAmpersands("&") == "";
    assert WithoutAmpersands("x&y") == "x" + ("" + "y") == "xy";
    assert WithoutAmpersands(fragments[0]) == "a" + "=" + "xy" == "a=xy";
    assert Concat(fragments[1..]) == "";
    assert Base + "a=xy" + "" == Base + "a=xy";
  }
}
