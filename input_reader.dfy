/** `read_urls` on a `.txt` file: every line, stripped, that is not blank. */
module InputReader {
  import opened Wrappers
  import opened Strings
  import opened CruxResponse

  /** `[line.strip() for line in f if line.strip()]`, over the lines the file yields (each
      still ending in its newline). */
  function UrlsFromLines(lines: seq<string>): seq<string> {
    if lines == [] then []
    else
      var line := Strip(lines[|lines| - 1]);
      UrlsFromLines(lines[..|lines| - 1]) + if line != [] then [line] else []
  }

  /** The reader dispatches on the file's suffix: `.txt` files are read line by line; `.csv`
      files yield their `url` column, read by pandas and taken here as `csvColumn` (`None` when
      the table has no such column, where the lookup raises `KeyError`); any other suffix
      raises `ValueError`. */
  function ReadUrls(suffix: string, lines: seq<string>, csvColumn: Option<seq<string>>): (r: Result<seq<string>, Error>)
    ensures suffix == ".txt" ==> r == Ok(UrlsFromLines(lines))
    ensures suffix == ".csv" ==> r == if csvColumn.Some? then Ok(csvColumn.value) else Err(KeyError("url"))
    ensures suffix != ".csv" && suffix != ".txt" ==> r == Err(ValueError)
  {
    if suffix == ".csv" then
      if csvColumn.Some? then Ok(csvColumn.value) else Err(KeyError("url"))
    else if suffix == ".txt" then Ok(UrlsFromLines(lines))
    else Err(ValueError)
  }

  /** The lines of two consecutive parts of the file yield the URLs of each part, in order. */
  lemma {:induction false} UrlsAppend(a: seq<string>, b: seq<string>)
    ensures UrlsFromLines(a + b) == UrlsFromLines(a) + UrlsFromLines(b)
    decreases |b|
  {
    if b == [] {
      assert a + b == a;
    } else {
      var n := |b| - 1;
      assert (a + b)[..|a + b| - 1] == a + b[..n];
      assert (a + b)[|a + b| - 1] == b[n];
      UrlsAppend(a, b[..n]);
    }
  }

  /** Every URL read is non-empty and has no surrounding white space. */
  lemma {:induction false} UrlsWellFormed(lines: seq<string>)
    ensures forall i :: 0 <= i < |UrlsFromLines(lines)| ==>
              UrlsFromLines(lines)[i] != [] && Trimmed(UrlsFromLines(lines)[i])
  {
    if lines != [] {
      UrlsWellFormed(lines[..|lines| - 1]);
      StripShape(lines[|lines| - 1]);
    }
  }

  /** A single line yields its stripped text, or nothing when it is blank. */
  lemma UrlsOfLine(line: string)
    ensures UrlsFromLines([line]) == if AllSpace(line) then [] else [Strip(line)]
  {
    assert [line][..0] == [];
    StripEmpty(line);
  }

  /** A blank line anywhere in the file is skipped without a trace. */
  lemma BlankLineSkipped(a: seq<string>, line: string, b: seq<string>)
    requires AllSpace(line)
    ensures UrlsFromLines(a + [line] + b) == UrlsFromLines(a + b)
  {
    UrlsAppend(a + [line], b);
    UrlsAppend(a, [line]);
    UrlsOfLine(line);
    UrlsAppend(a, b);
  }

  /** A line with text keeps its place among the URLs, stripped. */
  lemma TextLineKept(a: seq<string>, line: string, b: seq<string>)
    requires !AllSpace(line)
    ensures UrlsFromLines(a + [line] + b) == UrlsFromLines(a) + [Strip(line)] + UrlsFromLines(b)
  {
    UrlsAppend(a + [line], b);
    UrlsAppend(a, [line]);
    UrlsOfLine(line);
  }

  /** Never more URLs than lines. */
  lemma {:induction false} UrlsCount(lines: seq<string>)
    ensures |UrlsFromLines(lines)| <= |lines|
  {
    if lines != [] {
      UrlsCount(lines[..|lines| - 1]);
    }
  }

  /** Reading back a file that holds exactly the URLs read gives the same URLs. */
  lemma {:induction false} UrlsIdempotent(lines: seq<string>)
    ensures UrlsFromLines(UrlsFromLines(lines)) == UrlsFromLines(lines)
  {
    if lines != [] {
      var init := lines[..|lines| - 1];
      var line := lines[|lines| - 1];
      UrlsIdempotent(init);
      UrlsAppend(UrlsFromLines(init), if Strip(line) != [] then [Strip(line)] else []);
      if Strip(line) != [] {
        StripIdempotent(line);
        assert [Strip(line)][..0] == [];
      }
    }
  }

  /** Surrounding spaces and newlines are removed, and the blank line goes. */
  lemma UrlsExample(u: string, v: string)
    requires u != [] && Trimmed(u) && v != [] && Trimmed(v)
    ensures UrlsFromLines(["  " + u + "\n", "\n", v + "\n"]) == [u, v]
  {
    var l1, l2, l3 := "  " + u + "\n", "\n", v + "\n";
    StripUnique("  ", u, "\n");
    StripUnique([], v, "\n");
    assert [] + v + "\n" == l3;
    StripEmpty(l2);
    var ls := [l1, l2, l3];
    assert ls[..2] == [l1, l2] && [l1, l2][..1] == [l1] && [l1][..0] == [];
    assert UrlsFromLines([l1]) == [] + [u];
    assert UrlsFromLines([l1, l2]) == [u] + [];
    assert UrlsFromLines(ls) == [u] + [v];
  }
}
