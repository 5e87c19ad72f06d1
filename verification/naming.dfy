/** Package configuration: which observation package the preprocessor serves
    and the names of dimensions and fields that follow from it. */
module Naming {
  import opened Wrappers

  /** The two accepted observation packages. */
  datatype Pkg = Profiles | Obsfit

  /** The package name as the caller spells it. */
  function PkgName(p: Pkg): string
  {
    match p
    case Profiles => "profiles"
    case Obsfit => "obsfit"
  }

  /** The message of the ValueError raised for an unknown package name. */
  function InvalidPkgMessage(s: string): string
  {
    "Invalid pkg '" + s + "'. Must be either 'profiles' or 'obsfit'."
  }

  /** Validation done first thing by the constructor: only the exact names
      'profiles' and 'obsfit' are accepted, anything else raises an error
      whose message starts by naming the rejected value. */
  function ParsePkg(s: string): (r: Result<Pkg>)
    ensures r.Ok? <==> s == "profiles" || s == "obsfit"
    ensures r.Ok? ==> PkgName(r.value) == s
    ensures r.Err? ==> r.error.ValueError? && "Invalid pkg '" + s + "'" <= r.error.msg
  {
    if s == "profiles" then Ok(Profiles)
    else if s == "obsfit" then Ok(Obsfit)
    else Err(ValueError(InvalidPkgMessage(s)))
  }

  /** ASCII upper-casing of one character. */
  function UpperChar(ch: char): char
  {
    if 'a' <= ch <= 'z' then (ch as int - 32) as char else ch
  }

  /** `str.upper()` on the ASCII strings this module handles. */
  function Upper(s: string): (u: string)
    ensures |u| == |s|
    ensures forall i :: 0 <= i < |s| ==> u[i] == UpperChar(s[i])
  {
    if s == [] then [] else [UpperChar(s[0])] + Upper(s[1..])
  }

  /** Python's `xs * n` on lists: `n` copies of `xs` one after another. */
  function Repeat(xs: seq<string>, n: nat): (r: seq<string>)
    ensures |r| == |xs| * n
  {
    if n == 0 then [] else xs + Repeat(xs, n - 1)
  }

  /** Python's `int(b)` for a boolean used as a repetition count. */
  function BoolCount(b: bool): nat { if b then 1 else 0 }

  /** The naming table `get_pkg_fields` derives from the package. */
  datatype PkgFields = PkgFields(
    pkgStr: string,
    iPkg: string,
    dimsInsitu: seq<string>,
    dimsInterp: seq<string>,
    dimsDepth: seq<string>,
    dimsSpatial: seq<string>,
    lonStr: string,
    latStr: string)

  /** The naming table, built the way the source builds it: a short package
      string, its upper-cased dimension name, and list concatenations whose
      optional parts are repeated once or not at all. */
  function PkgFieldsOf(p: Pkg): (f: PkgFields)
    ensures f.dimsInsitu == [f.iPkg]
    ensures f.pkgStr == "prof" <==> p == Profiles
    ensures |f.dimsInterp| == |f.dimsSpatial| == (if p == Profiles then 2 else 1)
    ensures f.dimsInterp[..1] == f.dimsInsitu && f.dimsSpatial[..1] == f.dimsInsitu
    ensures |f.dimsDepth| == 1
  {
    var pkgStr := if p == Profiles then "prof" else "obs";
    var iPkg := "i" + Upper(pkgStr);
    var dimsInsitu := [iPkg];
    var dimsInterp := dimsInsitu + Repeat(["iINTERP"], BoolCount(pkgStr == "prof"));
    var dimsDepth := [if pkgStr == "prof" then "iDEPTH" else ""];
    var dimsSpatial := dimsInsitu + Repeat(dimsDepth, BoolCount(|dimsDepth[0]| > 0));
    var lonStr := if pkgStr == "prof" then "prof_lon" else "sample_lon";
    var latStr := if pkgStr == "prof" then "prof_lat" else "sample_lat";
    PkgFields(pkgStr, iPkg, dimsInsitu, dimsInterp, dimsDepth, dimsSpatial, lonStr, latStr)
  }

  /** The complete table for the profiles package. */
  lemma ProfilesFields()
    ensures PkgFieldsOf(Profiles) == PkgFields(
      "prof", "iPROF", ["iPROF"], ["iPROF", "iINTERP"], ["iDEPTH"], ["iPROF", "iDEPTH"],
      "prof_lon", "prof_lat")
  {
    var u := Upper("prof");
    assert u[0] == 'P' && u[1] == 'R' && u[2] == 'O' && u[3] == 'F';
    assert u == "PROF";
    assert "i" + u == "iPROF";
    assert ["iPROF"] + Repeat(["iINTERP"], BoolCount(true)) == ["iPROF", "iINTERP"];
    assert ["iPROF"] + Repeat(["iDEPTH"], BoolCount(true)) == ["iPROF", "iDEPTH"];
  }

  /** The complete table for the obsfit package: no interpolation and no depth
      dimension, so the interpolation and spatial dimensions are the in-situ one. */
  lemma ObsfitFields()
    ensures PkgFieldsOf(Obsfit) == PkgFields(
      "obs", "iOBS", ["iOBS"], ["iOBS"], [""], ["iOBS"], "sample_lon", "sample_lat")
    ensures PkgFieldsOf(Obsfit).dimsInterp == PkgFieldsOf(Obsfit).dimsSpatial
                                           == PkgFieldsOf(Obsfit).dimsInsitu
  {
    var u := Upper("obs");
    assert u[0] == 'O' && u[1] == 'B' && u[2] == 'S';
    assert u == "OBS";
    assert "i" + u == "iOBS";
    assert ["iOBS"] + Repeat(["iINTERP"], BoolCount(false)) == ["iOBS"];
    assert ["iOBS"] + Repeat([""], BoolCount(false)) == ["iOBS"];
  }

  /** The prefix of the per-observation point field, `{pkg_str}_point`. */
  function PointName(f: PkgFields): string { f.pkgStr + "_point" }

  /** The prefix of the six interpolation fields: 'prof' or 'sample'. */
  function InterpPrefix(f: PkgFields): string
  {
    if f.pkgStr == "prof" then "prof" else "sample"
  }
}
