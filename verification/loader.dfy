/** The catalogue loader: one cluster per line, read up to the first blank
    line or the end of the file. A line is given already split into
    whitespace-separated tokens; reading the file is not part of this model. */
module Loader {
  import opened Outcome
  import opened Seqs
  import opened Clusters

  /** A whitespace-separated token: one that `float` accepts with a finite
      value, with that value, or one it rejects. */
  datatype Token = Number(value: real) | NonNumeric

  predicate IsNumber(t: Token) { t.Number? }

  /** A line that stops the loader: empty once surrounding blanks are stripped. */
  predicate IsBlank(line: seq<Token>) { line == [] }

  predicate NotBlank(line: seq<Token>) { !IsBlank(line) }

  /** A line whose first seven tokens all exist and are numbers. */
  predicate WellFormed(line: seq<Token>)
  {
    |line| >= 7 && forall i :: 0 <= i < 7 ==> line[i].Number?
  }

  /** The outcome of converting the first seven tokens in order: the first of
      them that is missing raises IndexError, the first that is not a number
      raises ValueError, and tokens after the seventh are never looked at. */
  function ParsedFields(line: seq<Token>): (r: Result<seq<real>>)
    ensures r.Success? <==> WellFormed(line)
    ensures r.Success? ==> |r.value| == 7 && forall i :: 0 <= i < 7 ==> r.value[i] == line[i].value
    ensures r == Failure(ValueError) <==> exists i :: 0 <= i < 7 && i < |line| && line[i] == NonNumeric
    ensures r == Failure(IndexError) <==> |line| < 7 && forall i :: 0 <= i < |line| ==> line[i].Number?
  {
    var m := if |line| < 7 then |line| else 7;
    var b := FirstNot(line[..m], IsNumber);
    if b < m then
      assert line[b] == line[..m][b];
      Failure(ValueError)
    else if m < 7 then
      assert forall i :: 0 <= i < |line| ==> IsNumber(line[..m][i]);
      Failure(IndexError)
    else
      assert forall i :: 0 <= i < 7 ==> IsNumber(line[..m][i]);
      Success(seq(7, i requires 0 <= i < 7 => line[i].value))
  }

  /** Converts the first seven tokens of a line, one after the other. */
  method ConvertFields(line: seq<Token>) returns (r: Result<seq<real>>)
    ensures r == ParsedFields(line)
  {
    var data: seq<real> := [];
    for i := 0 to 7
      invariant |data| == i && i <= |line|
      invariant forall j :: 0 <= j < i ==> j < |line| && line[j].Number? && data[j] == line[j].value
    {
      if i >= |line| {
        return Failure(IndexError);
      }
      if line[i].NonNumeric? {
        return Failure(ValueError);
      }
      data := data + [line[i].value];
    }
    assert WellFormed(line);
    assert data == ParsedFields(line).value;
    return Success(data);
  }

  /** Number of lines before the first blank one (all of them when none is blank). */
  function CatalogueLength(lines: seq<seq<Token>>): (n: nat)
    ensures n <= |lines|
    ensures forall k :: 0 <= k < n ==> lines[k] != []
    ensures n < |lines| ==> lines[n] == []
  {
    FirstNot(lines, NotBlank)
  }

  /** Parses non-blank lines in order; the first line that fails stops it. */
  function ParseAll(lines: seq<seq<Token>>): (r: Result<seq<Cluster>>)
    ensures r.Success? ==> |r.value| == |lines|
  {
    if lines == [] then Success([])
    else
      match ParseAll(lines[..|lines| - 1])
      case Failure(e) => Failure(e)
      case Success(gcs) =>
        match ParsedFields(lines[|lines| - 1])
        case Failure(e) => Failure(e)
        case Success(data) => Success(gcs + [MakeCluster(data)])
  }

  /** What loading a file with these lines yields. */
  function LoadOf(lines: seq<seq<Token>>): (r: Result<seq<Cluster>>)
    ensures r.Success? ==> |r.value| == CatalogueLength(lines)
  {
    ParseAll(lines[..CatalogueLength(lines)])
  }

  /** Parsing succeeds exactly when every line is well formed, and then gives
      one record per line, in order, built from that line's first seven
      tokens; otherwise it fails with the error of the first bad line. */
  lemma {:induction false} ParseAllSpec(lines: seq<seq<Token>>)
    ensures ParseAll(lines).Success? <==> forall k :: 0 <= k < |lines| ==> WellFormed(lines[k])
    ensures ParseAll(lines).Success? ==>
      && |ParseAll(lines).value| == |lines|
      && forall k :: 0 <= k < |lines| ==>
           WellFormed(lines[k]) && ParseAll(lines).value[k] == MakeCluster(ParsedFields(lines[k]).value)
    ensures ParseAll(lines).Failure? ==>
      var b := FirstNot(lines, WellFormed);
      b < |lines| && ParseAll(lines).error == ParsedFields(lines[b]).error
  {
    if lines != [] {
      var init := lines[..|lines| - 1];
      var last := lines[|lines| - 1];
      ParseAllSpec(init);
      assert forall k :: 0 <= k < |init| ==> init[k] == lines[k];
      var b := FirstNot(lines, WellFormed);
      var b0 := FirstNot(init, WellFormed);
      if ParseAll(init).Failure? {
        assert !WellFormed(lines[b0]);
        assert b == b0;
      } else if !WellFormed(last) {
        assert b == |lines| - 1;
      }
    }
  }

  /** Once a prefix of the lines fails, every longer prefix fails the same way. */
  lemma {:induction false} ParseAllFailureSticks(lines: seq<seq<Token>>, i: nat, m: nat)
    requires i <= m <= |lines|
    requires ParseAll(lines[..i]).Failure?
    ensures ParseAll(lines[..m]) == ParseAll(lines[..i])
  {
    if m > i {
      ParseAllFailureSticks(lines, i, m - 1);
      assert lines[..m][..m - 1] == lines[..m - 1];
    }
  }

  /** Parsing one more line extends a successful parse or reports that
      line's error. */
  lemma ParseAllStep(lines: seq<seq<Token>>, i: nat)
    requires i < |lines| && ParseAll(lines[..i]).Success?
    ensures ParsedFields(lines[i]).Failure? ==> ParseAll(lines[..i + 1]) == Failure(ParsedFields(lines[i]).error)
    ensures ParsedFields(lines[i]).Success? ==>
      ParseAll(lines[..i + 1]) == Success(ParseAll(lines[..i]).value + [MakeCluster(ParsedFields(lines[i]).value)])
  {
    assert lines[..i + 1][..i] == lines[..i];
  }

  /** Reads lines until the first blank one, turning each into a record. */
  method LoadCatalogue(lines: seq<seq<Token>>) returns (r: Result<seq<Cluster>>)
    ensures r == LoadOf(lines)
  {
    var gcs: seq<Cluster> := [];
    var i := 0;
    while i < |lines| && lines[i] != []
      invariant 0 <= i <= |lines|
      invariant FirstNot(lines, NotBlank) >= i
      invariant ParseAll(lines[..i]) == Success(gcs)
    {
      FirstNotStep(lines, NotBlank, i);
      var data := ConvertFields(lines[i]);
      ParseAllStep(lines, i);
      if data.Failure? {
        ParseAllFailureSticks(lines, i + 1, CatalogueLength(lines));
        return Failure(data.error);
      }
      gcs := gcs + [MakeCluster(data.value)];
      i := i + 1;
    }
    if i < |lines| {
      FirstNotAt(lines, NotBlank, i);
    }
    assert i == CatalogueLength(lines);
    return Success(gcs);
  }

  /** Loading succeeds exactly when every line before the first blank one is
      well formed; it then yields one record per such line, in file order,
      built from the line's first seven tokens (extra tokens are ignored). A
      failure is the error of the first malformed line. */
  lemma LoadOfSpec(lines: seq<seq<Token>>)
    ensures var n := CatalogueLength(lines);
      && (LoadOf(lines).Success? <==> forall k :: 0 <= k < n ==> WellFormed(lines[k]))
      && (LoadOf(lines).Success? ==>
           && |LoadOf(lines).value| == n
           && forall k :: 0 <= k < n ==>
                WellFormed(lines[k])
                && LoadOf(lines).value[k] == MakeCluster(ParsedFields(lines[k]).value))
      && (LoadOf(lines).Failure? ==>
           var b := FirstNot(lines[..n], WellFormed);
           b < n && !WellFormed(lines[b]) && LoadOf(lines).error == ParsedFields(lines[b]).error)
  {
    var n := CatalogueLength(lines);
    ParseAllSpec(lines[..n]);
    assert forall k :: 0 <= k < n ==> lines[..n][k] == lines[k];
  }
}
