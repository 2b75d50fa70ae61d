/** Batch selection (`listar_arquivos`): the entries of a folder listing whose
    name ends in ".pdf", each joined to the folder path, in listing order. */
module Files {
  import opened PyText

  /** The document suffix the program recognises (case-sensitive). */
  const PdfSuffix: string := ".pdf"

  predicate IsPdf(name: string) {
    EndsWith(name, PdfSuffix)
  }

  /** What one listing entry contributes to the selection. */
  function Keep(folder: string, name: string, join: (string, string) -> string): seq<string> {
    if IsPdf(name) then [join(folder, name)] else []
  }

  /** `[os.path.join(pasta, f) for f in listing if f.endswith(".pdf")]`, with
      `os.path.join` given as `join` and `os.listdir(pasta)` as `listing`. */
  function ListFiles(folder: string, listing: seq<string>, join: (string, string) -> string): (r: seq<string>)
    ensures |r| <= |listing|
  {
    if listing == [] then []
    else Keep(folder, listing[0], join) + ListFiles(folder, listing[1..], join)
  }

  /** The selection is empty exactly when no entry of the listing ends in ".pdf". */
  lemma {:induction false} ListFilesEmpty(folder: string, listing: seq<string>, join: (string, string) -> string)
    ensures ListFiles(folder, listing, join) == [] <==> forall i :: 0 <= i < |listing| ==> !IsPdf(listing[i])
  {
    if listing != [] {
      ListFilesEmpty(folder, listing[1..], join);
      assert forall i :: 1 <= i < |listing| ==> listing[1..][i - 1] == listing[i];
    }
  }

  /** The positions at or after `from` of the PDF entries of a listing, in
      increasing order (`PdfPositionsOrdered`), all of them
      (`PdfPositionsComplete`). */
  function PdfPositions(listing: seq<string>, from: nat): (r: seq<nat>)
    requires from <= |listing|
    ensures forall k :: 0 <= k < |r| ==> from <= r[k] < |listing| && IsPdf(listing[r[k]])
    decreases |listing| - from
  {
    if from == |listing| then []
    else
      var rest := PdfPositions(listing, from + 1);
      if IsPdf(listing[from]) then
        assert forall k :: 1 <= k < 1 + |rest| ==> ([from] + rest)[k] == rest[k - 1];
        [from] + rest
      else rest
  }

  lemma {:induction false} PdfPositionsOrdered(listing: seq<string>, from: nat)
    requires from <= |listing|
    ensures forall k, l :: 0 <= k < l < |PdfPositions(listing, from)| ==>
      PdfPositions(listing, from)[k] < PdfPositions(listing, from)[l]
    decreases |listing| - from
  {
    if from < |listing| {
      PdfPositionsOrdered(listing, from + 1);
      var rest := PdfPositions(listing, from + 1);
      if IsPdf(listing[from]) {
        var r := [from] + rest;
        forall k, l | 0 <= k < l < |r|
          ensures r[k] < r[l]
        {
          assert r[l] == rest[l - 1];
          if k > 0 {
            assert r[k] == rest[k - 1];
          }
        }
      }
    }
  }

  lemma {:induction false} PdfPositionsComplete(listing: seq<string>, from: nat)
    requires from <= |listing|
    ensures forall i :: from <= i < |listing| && IsPdf(listing[i]) ==> i in PdfPositions(listing, from)
    decreases |listing| - from
  {
    if from < |listing| {
      PdfPositionsComplete(listing, from + 1);
    }
  }

  /** The selection is exactly the PDF entries in listing order: the k-th
      selected path is the folder joined with the k-th PDF entry, and there is
      one path per PDF entry. */
  lemma ListFilesSelects(folder: string, listing: seq<string>, join: (string, string) -> string)
    ensures var r, pos := ListFiles(folder, listing, join), PdfPositions(listing, 0);
      |r| == |pos| && forall k :: 0 <= k < |r| ==> r[k] == join(folder, listing[pos[k]])
  {
    assert listing[0..] == listing;
    SelectsFrom(folder, listing, 0, join);
  }

  lemma {:induction false} SelectsFrom(folder: string, listing: seq<string>, from: nat, join: (string, string) -> string)
    requires from <= |listing|
    ensures var r, pos := ListFiles(folder, listing[from..], join), PdfPositions(listing, from);
      |r| == |pos| && forall k :: 0 <= k < |r| ==> r[k] == join(folder, listing[pos[k]])
    decreases |listing| - from
  {
    if from < |listing| {
      SelectsFrom(folder, listing, from + 1, join);
      var rest, pos := ListFiles(folder, listing[from + 1..], join), PdfPositions(listing, from + 1);
      assert ListFiles(folder, listing[from..], join) == Keep(folder, listing[from], join) + rest by {
        assert listing[from..][1..] == listing[from + 1..];
        assert listing[from..][0] == listing[from];
      }
      if IsPdf(listing[from]) {
        assert PdfPositions(listing, from) == [from] + pos;
        SelectsCons(join(folder, listing[from]), rest, from, pos, listing, folder, join);
      } else {
        assert PdfPositions(listing, from) == pos;
      }
    }
  }

  lemma SelectsCons(x: string, rest: seq<string>, p: nat, pos: seq<nat>, listing: seq<string>,
                    folder: string, join: (string, string) -> string)
    requires p < |listing| && x == join(folder, listing[p])
    requires forall k :: 0 <= k < |pos| ==> pos[k] < |listing|
    requires |rest| == |pos| && forall k :: 0 <= k < |rest| ==> rest[k] == join(folder, listing[pos[k]])
    ensures var r, ps := [x] + rest, [p] + pos;
      |r| == |ps| && forall k :: 0 <= k < |r| ==> r[k] == join(folder, listing[ps[k]])
  {
    var r, ps := [x] + rest, [p] + pos;
    assert forall k :: 1 <= k < |r| ==> r[k] == rest[k - 1] && ps[k] == pos[k - 1];
  }

  /** Selection distributes over concatenation of listings, so the relative order
      of any two PDF entries is kept. */
  lemma {:induction false} ListFilesAppend(folder: string, a: seq<string>, b: seq<string>, join: (string, string) -> string)
    ensures ListFiles(folder, a + b, join) == ListFiles(folder, a, join) + ListFiles(folder, b, join)
  {
    if a == [] {
      assert a + b == b;
    } else {
      var head := Keep(folder, a[0], join);
      calc {
        ListFiles(folder, a + b, join);
      == { assert (a + b)[0] == a[0] && (a + b)[1..] == a[1..] + b; }
        head + ListFiles(folder, a[1..] + b, join);
      == { ListFilesAppend(folder, a[1..], b, join); }
        head + (ListFiles(folder, a[1..], join) + ListFiles(folder, b, join));
      ==
        (head + ListFiles(folder, a[1..], join)) + ListFiles(folder, b, join);
      }
    }
  }

  /** Every selected path comes from a PDF entry of the listing, and every PDF
      entry gives a selected path. */
  lemma ListFilesMembers(folder: string, listing: seq<string>, join: (string, string) -> string, x: string)
    ensures x in ListFiles(folder, listing, join) <==>
      exists i :: 0 <= i < |listing| && IsPdf(listing[i]) && x == join(folder, listing[i])
  {
    ListFilesSelects(folder, listing, join);
    var r, pos := ListFiles(folder, listing, join), PdfPositions(listing, 0);
    if x in r {
      var k :| 0 <= k < |r| && r[k] == x;
      assert IsPdf(listing[pos[k]]);
    }
    if exists i :: 0 <= i < |listing| && IsPdf(listing[i]) && x == join(folder, listing[i]) {
      var i :| 0 <= i < |listing| && IsPdf(listing[i]) && x == join(folder, listing[i]);
      PdfPositionsComplete(listing, 0);
      var k :| 0 <= k < |pos| && pos[k] == i;
      assert r[k] == x;
    }
  }

  /** The suffix test is case-sensitive: an upper-case ".PDF" is not selected. */
  lemma UpperCaseSuffixSkipped(folder: string, join: (string, string) -> string)
    ensures ListFiles(folder, ["a.pdf", "b.PDF", "notes.txt"], join) == [join(folder, "a.pdf")]
  {
    var listing := ["a.pdf", "b.PDF", "notes.txt"];
    assert !IsPdf("b.PDF") by { assert "b.PDF"[1..] != PdfSuffix by { assert "b.PDF"[2] == 'P'; } }
    assert !IsPdf("notes.txt") by { assert "notes.txt"[5..] != PdfSuffix by { assert "notes.txt"[6] == 't'; } }
    calc {
      ListFiles(folder, listing, join);
    ==
      Keep(folder, "a.pdf", join) + ListFiles(folder, listing[1..], join);
    == { assert listing[1..] == ["b.PDF", "notes.txt"]; }
      [join(folder, "a.pdf")] + Keep(folder, "b.PDF", join) + ListFiles(folder, ["notes.txt"], join);
    == { assert ["notes.txt"][1..] == []; }
      [join(folder, "a.pdf")] + [] + (Keep(folder, "notes.txt", join) + []);
    ==
      [join(folder, "a.pdf")];
    }
  }
}
