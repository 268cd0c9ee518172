/**
 * The resumable scraper of matprojscraper.py: choosing the first
 * Materials Project id from the destination folder and the `resume`
 * argument, the file name under which each id is stored and the id read
 * back from a file name, and the lookup/write/increment loop, run for a
 * given number of iterations against a lookup oracle.
 */
module Scraper {
  import opened Wrappers
  import opened Text

  // ---------------------------------------------------------------------------
  // File names and ids
  // ---------------------------------------------------------------------------

  /** Python's `s.replace(pat, rep)`: every occurrence, leftmost first, without overlaps. */
  function Replace(s: string, pat: string, rep: string): string
    requires |pat| > 0
    decreases |s|
  {
    if |s| < |pat| then s
    else if s[..|pat|] == pat then rep + Replace(s[|pat|..], pat, rep)
    else [s[0]] + Replace(s[1..], pat, rep)
  }

  /** The characters Python 2's `int` ignores around a numeral (C's `isspace`). */
  predicate IsSpace(c: char) {
    c == ' ' || c == '\t' || c == '\n' || c == '\r' || c == '\U{000B}' || c == '\U{000C}'
  }

  predicate AllSpace(w: string) {
    forall i :: 0 <= i < |w| ==> IsSpace(w[i])
  }

  /** `s` without its leading white space: a suffix of `s`. */
  function TrimStart(s: string): (r: string)
    ensures |r| == 0 || !IsSpace(r[0])
  {
    if |s| > 0 && IsSpace(s[0]) then TrimStart(s[1..]) else s
  }

  /** `s` without its trailing white space: a prefix of `s`. */
  function TrimEnd(s: string): (r: string)
    ensures |r| == 0 || !IsSpace(r[|r| - 1])
  {
    if |s| > 0 && IsSpace(s[|s| - 1]) then TrimEnd(s[..|s| - 1]) else s
  }

  /**
   * Python 2's `int(s)` on a byte string: white space around it, an optional
   * sign, white space again after the sign (the C routine behind `int` skips
   * it a second time), and at least one decimal digit; anything else raises
   * ValueError.
   */
  function ParseInt(s: string): Result<int> {
    var t := TrimEnd(TrimStart(s));
    if IsNumeral(t) then Ok(NumeralValue(t))
    else if |t| > 0 && (t[0] == '+' || t[0] == '-') && IsNumeral(TrimStart(t[1..])) then
      var v := NumeralValue(TrimStart(t[1..])) as int;
      Ok(if t[0] == '-' then -v else v)
    else Err(ValueError)
  }

  lemma {:induction false} TrimStartSpaces(w: string, x: string)
    requires AllSpace(w)
    ensures TrimStart(w + x) == TrimStart(x)
    decreases |w|
  {
    if |w| > 0 {
      assert (w + x)[1..] == w[1..] + x;
      TrimStartSpaces(w[1..], x);
    } else {
      assert w + x == x;
    }
  }

  lemma {:induction false} TrimEndSpaces(x: string, w: string)
    requires AllSpace(w)
    ensures TrimEnd(x + w) == TrimEnd(x)
    decreases |w|
  {
    if |w| > 0 {
      assert (x + w)[..|x + w| - 1] == x + w[..|w| - 1];
      TrimEndSpaces(x, w[..|w| - 1]);
    } else {
      assert x + w == x;
    }
  }

  /** Trimming removes exactly the white space around a core that starts and ends with other characters. */
  lemma TrimAround(before: string, core: string, after: string)
    requires AllSpace(before) && AllSpace(after)
    requires |core| > 0 && !IsSpace(core[0]) && !IsSpace(core[|core| - 1])
    ensures TrimEnd(TrimStart(before + core + after)) == core
  {
    assert before + core + after == before + (core + after);
    TrimStartSpaces(before, core + after);
    assert (core + after)[0] == core[0];
    TrimEndSpaces(core, after);
  }

  /** `int` accepts a numeral with white space around it and gives its value. */
  lemma ParseIntUnsigned(before: string, d: string, after: string)
    requires AllSpace(before) && AllSpace(after) && IsNumeral(d)
    ensures ParseInt(before + d + after) == Ok(NumeralValue(d))
  {
    assert !IsSpace(d[0]) && !IsSpace(d[|d| - 1]);
    TrimAround(before, d, after);
  }

  /**
   * `int` also accepts a sign in front of the numeral, with white space
   * after the sign as well, and negates the value after a minus.
   */
  lemma ParseIntSigned(before: string, sign: char, between: string, d: string, after: string)
    requires AllSpace(before) && AllSpace(between) && AllSpace(after) && IsNumeral(d)
    requires sign == '+' || sign == '-'
    ensures ParseInt(before + [sign] + between + d + after)
            == Ok(if sign == '-' then -(NumeralValue(d) as int) else NumeralValue(d))
  {
    var core := [sign] + between + d;
    assert before + [sign] + between + d + after == before + core + after;
    assert core[0] == sign && core[|core| - 1] == d[|d| - 1];
    assert !IsSpace(d[0]) && !IsSpace(d[|d| - 1]);
    TrimAround(before, core, after);
    assert !IsDigit(core[0]);
    assert core[1..] == between + d;
    TrimStartSpaces(between, d);
  }

  /** In particular, a string of decimal digits reads as the number they denote. */
  lemma ParseIntNumeral(d: string)
    requires IsNumeral(d)
    ensures ParseInt(d) == Ok(NumeralValue(d))
  {
    ParseIntUnsigned("", d, "");
    assert "" + d + "" == d;
  }

  predicate NoDigit(s: string) {
    forall i :: 0 <= i < |s| ==> !IsDigit(s[i])
  }

  lemma {:induction false} TrimKeepsNoDigit(s: string)
    requires NoDigit(s)
    ensures NoDigit(TrimStart(s)) && NoDigit(TrimEnd(s))
    decreases |s|
  {
    if |s| > 0 {
      TrimKeepsNoDigit(s[1..]);
      TrimKeepsNoDigit(s[..|s| - 1]);
    }
  }

  /** A string without a decimal digit is never a number. */
  lemma ParseIntNeedsDigit(s: string)
    requires NoDigit(s)
    ensures ParseInt(s) == Err(ValueError)
  {
    TrimKeepsNoDigit(s);
    var t := TrimEnd(TrimStart(s));
    TrimKeepsNoDigit(TrimStart(s));
    if |t| > 0 {
      assert !IsDigit(t[0]);
      assert NoDigit(t[1..]);
      TrimKeepsNoDigit(t[1..]);
      var v := TrimStart(t[1..]);
      if |v| > 0 {
        assert !IsDigit(v[0]);
      }
    }
  }

  /** A name with anything besides the id left in it is not a number. */
  lemma ParseIntRejectsLetters()
    ensures ParseInt("mp-5") == Err(ValueError)
  {
    TrimAround("", "mp-5", "");
    assert "" + "mp-5" + "" == "mp-5";
    assert !IsDigit('m');
  }

  /** Only one sign is allowed. */
  lemma ParseIntRejectsDoubleSign()
    ensures ParseInt("--5") == Err(ValueError)
  {
    TrimAround("", "--5", "");
    assert "" + "--5" + "" == "--5";
    assert "--5"[1..] == "-5";
    assert TrimStart("-5") == "-5";
    assert !IsDigit('-');
  }

  /** White space may follow the sign: "- 5" reads as -5. */
  lemma ParseIntSpaceAfterSign()
    ensures ParseInt("- 5") == Ok(-5)
  {
    ParseIntSigned("", '-', " ", "5", "");
    assert "" + ['-'] + " " + "5" + "" == "- 5";
    assert NumeralValue("5") == 5;
  }

  /** White space around the numeral is ignored: " 42\n" reads as 42. */
  lemma ParseIntSurroundingSpace()
    ensures ParseInt(" 42\n") == Ok(42)
  {
    ParseIntUnsigned(" ", "42", "\n");
    assert " " + "42" + "\n" == " 42\n";
    assert NumeralValue("42") == 42 by {
      assert "42"[..1] == "4";
    }
  }

  /** The lambda of the resume code: strip "mp-" and ".mson", then `int`. */
  function ParseFileId(name: string): Result<int> {
    ParseInt(Replace(Replace(name, "mp-", ""), ".mson", ""))
  }

  /** `mpname + '.mson'` with `mpname = 'mp-' + str(id)`. */
  function FileName(id: nat): string {
    "mp-" + NatToString(id) + ".mson"
  }

  /** A string none of whose characters starts `pat` passes through `Replace` unchanged. */
  lemma {:induction false} ReplaceSkips(s: string, t: string, pat: string, rep: string)
    requires |pat| > 0
    requires forall i :: 0 <= i < |s| ==> s[i] != pat[0]
    ensures Replace(s + t, pat, rep) == s + Replace(t, pat, rep)
    decreases |s|
  {
    var u := s + t;
    if s == [] {
      assert u == t;
    } else if |u| >= |pat| {
      assert s[0] != pat[0];
      assert u[..|pat|][0] == s[0];
      assert u[..|pat|] != pat;
      assert Replace(u, pat, rep) == [u[0]] + Replace(u[1..], pat, rep);
      assert u[1..] == s[1..] + t;
      ReplaceSkips(s[1..], t, pat, rep);
      assert s == [s[0]] + s[1..];
    } else {
      assert Replace(u, pat, rep) == u;
      assert Replace(t, pat, rep) == t;
    }
  }

  lemma ReplaceMpInSuffix()
    ensures Replace(".mson", "mp-", "") == ".mson"
  {
    assert ".mson"[..3] == ".ms" && ".mson"[1..] == "mson";
    assert "mson"[..3] == "mso" && "mson"[1..] == "son";
    assert "son"[..3] == "son" && "son"[1..] == "on";
    assert ".ms" != "mp-" && "mso" != "mp-" && "son" != "mp-";
  }

  lemma ReplaceMpPrefix(d: string)
    requires IsNumeral(d)
    ensures Replace("mp-" + d + ".mson", "mp-", "") == d + ".mson"
  {
    var s := "mp-" + d + ".mson";
    assert s[..3] == "mp-";
    assert s[3..] == d + ".mson";
    ReplaceSkips(d, ".mson", "mp-", "");
    ReplaceMpInSuffix();
  }

  lemma ReplaceMsonSuffix(d: string)
    requires IsNumeral(d)
    ensures Replace(d + ".mson", ".mson", "") == d
  {
    ReplaceSkips(d, ".mson", ".mson", "");
    assert Replace(".mson", ".mson", "") == "";
  }

  /** Filename/id round trip: the id is read back from the name it was saved under. */
  lemma FileNameRoundTrip(id: nat)
    ensures ParseFileId(FileName(id)) == Ok(id)
  {
    var d := NatToString(id);
    ReplaceMpPrefix(d);
    ReplaceMsonSuffix(d);
    ParseIntNumeral(d);
  }

  /** Different ids are saved under different names. */
  lemma FileNameInjective(m: nat, n: nat)
    requires FileName(m) == FileName(n)
    ensures m == n
  {
    FileNameRoundTrip(m);
    FileNameRoundTrip(n);
  }

  // ---------------------------------------------------------------------------
  // Choosing the first id
  // ---------------------------------------------------------------------------

  /** `map(parse, files_list)`: all ids, or the ValueError of the first name that is not one. */
  function ParseAll(names: seq<string>): (r: Result<seq<int>>)
    ensures r.Ok? <==> forall i :: 0 <= i < |names| ==> ParseFileId(names[i]).Ok?
    ensures r.Ok? ==> |r.value| == |names|
    ensures r.Ok? ==> forall i :: 0 <= i < |names| ==> r.value[i] == ParseFileId(names[i]).value
    ensures r.Err? ==> r.error == ValueError
  {
    if names == [] then Ok([])
    else
      match ParseFileId(names[0])
      case Err(e) => Err(e)
      case Ok(id) =>
        match ParseAll(names[1..])
        case Err(e) => Err(e)
        case Ok(ids) => Ok([id] + ids)
  }

  /** `sorted(ids)[-1]`: the largest id. */
  function Largest(ids: seq<int>): (m: int)
    requires |ids| > 0
    ensures m in ids
    ensures forall i :: 0 <= i < |ids| ==> ids[i] <= m
  {
    if |ids| == 1 then ids[0]
    else
      var m := Largest(ids[1..]);
      assert ids[1..][0] in ids[1..];
      if ids[0] > m then ids[0] else
        assert m in ids[1..];
        m
  }

  /**
   * The id the loop starts from, given the folder listing: 1 unless the
   * folder is non-empty and `resume` is positive, and then the larger of
   * `resume` and the largest id in the folder (that id itself, not the
   * next one). A file name that is not an id stops the scraper with
   * ValueError.
   */
  function StartId(listing: seq<string>, resume: int): (r: Result<nat>)
    ensures (|listing| == 0 || resume <= 0) ==> r == Ok(1)
    ensures r.Ok? ==> r.value >= 1
    ensures |listing| > 0 && resume > 0 ==>
              (r.Ok? <==> forall i :: 0 <= i < |listing| ==> ParseFileId(listing[i]).Ok?)
    ensures |listing| > 0 && resume > 0 && r.Ok? ==>
              && r.value >= resume
              && (forall i :: 0 <= i < |listing| ==> ParseFileId(listing[i]).value <= r.value)
              && (r.value == resume || exists i :: 0 <= i < |listing| && ParseFileId(listing[i]) == Ok(r.value))
  {
    if |listing| > 0 && resume > 0 then
      match ParseAll(listing)
      case Err(e) => Err(e)
      case Ok(ids) =>
        var last := Largest(ids);
        var i :| 0 <= i < |ids| && ids[i] == last;
        assert ParseFileId(listing[i]) == Ok(last);
        Ok(if resume > last then resume else last)
    else Ok(1)
  }

  /** Lines 14-27: the counter starts at 1 and is reassigned when resuming. */
  method ChooseStart(filesList: seq<string>, resume: int) returns (r: Result<nat>)
    ensures r == StartId(filesList, resume)
  {
    var last: int := 1;
    if |filesList| > 0 && resume > 0 {
      var ids := ParseAll(filesList);
      if ids.Err? {
        return Err(ids.error);
      }
      last := Largest(ids.value);
      if resume > last {
        last := resume;
      }
    }
    return Ok(last);
  }

  /** The names under which the ids `ids` are saved. */
  function NamesOf(ids: seq<nat>): (r: seq<string>)
    ensures |r| == |ids| && forall i :: 0 <= i < |ids| ==> r[i] == FileName(ids[i])
  {
    seq(|ids|, i requires 0 <= i < |ids| => FileName(ids[i]))
  }

  /**
   * Resuming over a folder the scraper filled itself: the loop starts at the
   * larger of `resume` and the largest saved id.
   */
  lemma ResumeFromSavedIds(ids: seq<nat>, resume: int)
    requires |ids| > 0 && resume > 0
    ensures var last := Largest(ids);
            StartId(NamesOf(ids), resume) == Ok(if resume > last then resume else last)
  {
    var names := NamesOf(ids);
    forall i | 0 <= i < |names|
      ensures ParseFileId(names[i]) == Ok(ids[i] as int)
    {
      FileNameRoundTrip(ids[i]);
    }
    var parsed := ParseAll(names).value;
    assert parsed == ids;
  }

  /**
   * With `resume` positive but an empty folder the loop starts at 1, not at
   * `resume`: the folder must be non-empty for `resume` to be looked at. And
   * with the default `resume = 0` a full folder is scraped again from 1.
   */
  lemma ResumeNeedsFiles()
    ensures StartId([], 1234) == Ok(1)
    ensures StartId(NamesOf([5, 7, 12]), 0) == Ok(1)
  {
  }

  /** Saved ids {5, 7, 12} and `resume = 1`: the loop starts at 12 again, not at 13. */
  lemma ResumeExample()
    ensures StartId(NamesOf([5, 7, 12]), 1) == Ok(12)
  {
    ResumeFromSavedIds([5, 7, 12], 1);
    assert Largest([5, 7, 12]) == 12;
  }

  // ---------------------------------------------------------------------------
  // The destination folder and the loop
  // ---------------------------------------------------------------------------

  /**
   * The destination folder: the structure stored under each file name, and
   * the names in the order `os.listdir` gives them (taken to be the order
   * in which the files were created).
   */
  class Folder<S> {
    var names: seq<string>
    var files: map<string, S>

    ghost predicate Valid()
      reads this
    {
      && (forall name :: name in names <==> name in files)
      && (forall i, j :: 0 <= i < j < |names| ==> names[i] != names[j])
    }

    /** `os.mkdir(dest_folder)` when the folder does not exist. */
    constructor Empty()
      ensures Valid() && names == [] && files == map[]
    {
      names := [];
      files := map[];
    }

    /** `structure.write_to_json_file(path)`: creates or overwrites one file. */
    method Write(name: string, s: S)
      requires Valid()
      modifies this
      ensures Valid()
      ensures files == old(files)[name := s]
      ensures names == if name in old(files) then old(names) else old(names) + [name]
    {
      if name !in files {
        names := names + [name];
      }
      files := files[name := s];
    }
  }

  /** The store after looking up `id` once: the file for `id` is written iff the lookup succeeds. */
  function Store<S>(files: map<string, S>, oracle: nat -> Option<S>, id: nat): map<string, S> {
    match oracle(id)
    case Some(s) => files[FileName(id) := s]
    case None => files
  }

  /** The store after the `k` iterations for ids `start`, ..., `start + k - 1`. */
  function Stored<S>(files: map<string, S>, oracle: nat -> Option<S>, start: nat, k: nat): map<string, S>
    decreases k
  {
    if k == 0 then files else Store(Stored(files, oracle, start, k - 1), oracle, start + k - 1)
  }

  /**
   * The folder's names after the `k` iterations: the name of each file the
   * run creates is appended when it is created; overwriting a file leaves
   * the names as they were.
   */
  function Listed<S>(names: seq<string>, oracle: nat -> Option<S>, start: nat, k: nat): seq<string>
    decreases k
  {
    if k == 0 then names
    else
      var listed, id := Listed(names, oracle, start, k - 1), start + k - 1;
      if oracle(id).Some? && FileName(id) !in listed then listed + [FileName(id)] else listed
  }

  function Lookup<S>(files: map<string, S>, name: string): Option<S> {
    if name in files then Some(files[name]) else None
  }

  /**
   * The requests a run makes and where it stops: ids from `start` upwards,
   * one per iteration, whether or not anything was found.
   */
  function Ids(start: nat, k: nat): (r: seq<nat>)
    ensures |r| == k && forall i :: 0 <= i < k ==> r[i] == start + i
  {
    seq(k, i requires 0 <= i < k => start + i)
  }

  /**
   * Lines 33-41, run for `k` iterations from id `start`: look the id up,
   * write the structure if one was found, and move on to the next id either
   * way.
   */
  method Poll<S>(dest: Folder<S>, start: nat, oracle: nat -> Option<S>, k: nat)
      returns (next: nat, requested: seq<nat>)
    requires dest.Valid()
    modifies dest
    ensures dest.Valid()
    ensures next == start + k
    ensures requested == Ids(start, k)
    ensures dest.files == Stored(old(dest.files), oracle, start, k)
    ensures dest.names == Listed(old(dest.names), oracle, start, k)
  {
    ghost var files0, names0 := dest.files, dest.names;
    next := start;
    requested := [];
    var i := 0;
    while i < k
      invariant dest.Valid()
      invariant 0 <= i <= k && next == start + i
      invariant requested == Ids(start, i)
      invariant dest.files == Stored(files0, oracle, start, i)
      invariant dest.names == Listed(names0, oracle, start, i)
    {
      assert Ids(start, i + 1) == Ids(start, i) + [next];
      requested := requested + [next];
      match oracle(next) {
        case Some(a) =>
          dest.Write(FileName(next), a);
        case None =>
      }
      next := next + 1;
      i := i + 1;
    }
  }

  /**
   * `scraper(dest_folder, API_key, resume)` with its `while True` loop cut
   * off after `k` iterations and `get_structure_by_material_id` given as
   * `oracle` (None for the IndexError of an unknown id). A folder name that
   * is not an id raises ValueError before any lookup.
   */
  method Scrape<S>(dest: Folder<S>, resume: int, oracle: nat -> Option<S>, k: nat)
      returns (outcome: Result<nat>, requested: seq<nat>)
    requires dest.Valid()
    modifies dest
    ensures dest.Valid()
    ensures StartId(old(dest.names), resume).Err? ==>
              && outcome == Err(ValueError)
              && requested == []
              && dest.files == old(dest.files) && dest.names == old(dest.names)
    ensures StartId(old(dest.names), resume).Ok? ==>
              var start := StartId(old(dest.names), resume).value;
              && outcome == Ok(start + k)
              && requested == Ids(start, k)
              && dest.files == Stored(old(dest.files), oracle, start, k)
              && dest.names == Listed(old(dest.names), oracle, start, k)
  {
    var start := ChooseStart(dest.names, resume);
    if start.Err? {
      return Err(start.error), [];
    }
    var next;
    next, requested := Poll(dest, start.value, oracle, k);
    outcome := Ok(next);
  }

  // ---------------------------------------------------------------------------
  // What the loop does to the store
  // ---------------------------------------------------------------------------

  /** One iteration changes the store at the current id's file name and nowhere else. */
  lemma StoreElsewhere<S>(files: map<string, S>, oracle: nat -> Option<S>, id: nat, name: string)
    requires name != FileName(id)
    ensures Lookup(Store(files, oracle, id), name) == Lookup(files, name)
  {
  }

  /** After the loop, the file of each requested id holds what the lookup found, if anything. */
  lemma {:induction false} StoredAt<S>(files: map<string, S>, oracle: nat -> Option<S>, start: nat, k: nat, n: nat)
    requires start <= n < start + k
    ensures Lookup(Stored(files, oracle, start, k), FileName(n))
         == if oracle(n).Some? then oracle(n) else Lookup(files, FileName(n))
    decreases k
  {
    var last := start + k - 1;
    if n == last {
      forall m | start <= m < start + (k - 1)
        ensures FileName(m) != FileName(n)
      {
        if FileName(m) == FileName(n) {
          FileNameInjective(m, n);
        }
      }
      StoredUntouched(files, oracle, start, k - 1, FileName(n));
    } else {
      StoredAt(files, oracle, start, k - 1, n);
      if FileName(n) == FileName(last) {
        FileNameInjective(n, last);
      }
    }
  }

  /** A name that is not the file name of a requested id is left as it was. */
  lemma {:induction false} StoredUntouched<S>(files: map<string, S>, oracle: nat -> Option<S>, start: nat, k: nat, name: string)
    requires forall n :: start <= n < start + k ==> FileName(n) != name
    ensures Lookup(Stored(files, oracle, start, k), name) == Lookup(files, name)
    decreases k
  {
    if k > 0 {
      StoredUntouched(files, oracle, start, k - 1, name);
      assert FileName(start + k - 1) != name;
    }
  }

  /**
   * Into a folder that had no file for `n`, the run writes one for `n`
   * exactly when the lookup for `n` succeeds; a "not found" writes nothing.
   */
  lemma WrittenIffFound<S>(files: map<string, S>, oracle: nat -> Option<S>, start: nat, k: nat, n: nat)
    requires start <= n < start + k
    requires FileName(n) !in files
    ensures FileName(n) in Stored(files, oracle, start, k) <==> oracle(n).Some?
  {
    StoredAt(files, oracle, start, k, n);
  }

  /** Stopping after `j` iterations and going on from the next id loses and repeats nothing. */
  lemma {:induction false} StoredSplit<S>(files: map<string, S>, oracle: nat -> Option<S>, start: nat, j: nat, k: nat)
    ensures Stored(Stored(files, oracle, start, j), oracle, start + j, k) == Stored(files, oracle, start, j + k)
    decreases k
  {
    if k > 0 {
      StoredSplit(files, oracle, start, j, k - 1);
    }
  }

  /** `name` is the file of an id among `start`, ..., `start + k - 1` whose lookup succeeded. */
  predicate FoundName<S>(name: string, oracle: nat -> Option<S>, start: nat, k: nat) {
    exists n :: start <= n < start + k && oracle(n).Some? && name == FileName(n)
  }

  /** The names the folder had come first, in their old order; every name after them is the file of an id the run found. */
  lemma {:induction false} ListedAppends<S>(names: seq<string>, oracle: nat -> Option<S>, start: nat, k: nat)
    ensures |names| <= |Listed(names, oracle, start, k)|
    ensures Listed(names, oracle, start, k)[..|names|] == names
    ensures forall i :: |names| <= i < |Listed(names, oracle, start, k)| ==>
              FoundName(Listed(names, oracle, start, k)[i], oracle, start, k)
    decreases k
  {
    var r := Listed(names, oracle, start, k);
    if k == 0 {
      assert r == names;
    } else {
      ListedAppends(names, oracle, start, k - 1);
      var p := Listed(names, oracle, start, k - 1);
      var last := start + k - 1;
      assert r == p || r == p + [FileName(last)];
      assert r[..|p|] == p;
      assert r[..|names|] == p[..|names|];
      forall i | |names| <= i < |r|
        ensures FoundName(r[i], oracle, start, k)
      {
        if i < |p| {
          assert FoundName(p[i], oracle, start, k - 1);
          var n :| start <= n < start + (k - 1) && oracle(n).Some? && p[i] == FileName(n);
          assert r[i] == p[i];
          assert start <= n < start + k;
        } else {
          assert r == p + [FileName(last)];
          assert oracle(last).Some? && r[i] == FileName(last);
        }
      }
    }
  }

  /**
   * Fetching the largest saved id again rewrites the same record: a repeated
   * lookup changes nothing, since the lookup is taken to return the same
   * record for the same id every time it is asked.
   */
  lemma StoreTwice<S>(files: map<string, S>, oracle: nat -> Option<S>, id: nat)
    ensures Store(Store(files, oracle, id), oracle, id) == Store(files, oracle, id)
  {
  }
}
