/** Java's string operations used to read comma-separated lines: `String.split(",")` and
    `String.trim()`. */
module JavaText {

  /** The pieces of s between commas, empty pieces included: k commas give k + 1 pieces. */
  function Fields(s: string): (fs: seq<string>)
    ensures |fs| >= 1
  {
    if |s| == 0 then [""]
    else
      var rest := Fields(s[1..]);
      if s[0] == ',' then [""] + rest else [[s[0]] + rest[0]] + rest[1..]
  }

  /** The pieces glued back together with commas. */
  function Join(fs: seq<string>): string
    requires |fs| >= 1
  {
    if |fs| == 1 then fs[0] else fs[0] + "," + Join(fs[1..])
  }

  /** The number of commas in s. */
  function Commas(s: string): nat {
    if |s| == 0 then 0 else (if s[0] == ',' then 1 else 0) + Commas(s[1..])
  }

  /** Gluing the pieces back together gives the line that was cut. */
  lemma {:induction false} JoinFields(s: string)
    ensures Join(Fields(s)) == s
  {
    if |s| > 0 {
      var rest := Fields(s[1..]);
      JoinFields(s[1..]);
      if s[0] == ',' {
        assert Fields(s) == [""] + rest;
        assert Join(Fields(s)) == "" + "," + Join(rest);
      } else {
        var head := [s[0]] + rest[0];
        assert Fields(s) == [head] + rest[1..];
        if |rest| == 1 {
          assert Join(Fields(s)) == head;
        } else {
          assert Join(rest) == rest[0] + "," + Join(rest[1..]);
          assert Join(Fields(s)) == head + "," + Join(rest[1..]);
        }
        assert [s[0]] + s[1..] == s;
      }
    }
  }

  /** No piece contains a comma, and there is one more piece than there are commas. */
  lemma {:induction false} FieldsShape(s: string)
    ensures |Fields(s)| == Commas(s) + 1
    ensures forall j :: 0 <= j < |Fields(s)| ==> ',' !in Fields(s)[j]
  {
    if |s| > 0 {
      FieldsShape(s[1..]);
      var rest := Fields(s[1..]);
      if s[0] != ',' {
        var head := [s[0]] + rest[0];
        assert ',' !in rest[0];
        assert ',' !in head;
        forall j | 0 <= j < |Fields(s)|
          ensures ',' !in Fields(s)[j]
        {
          if j > 0 {
            assert Fields(s)[j] == rest[j];
          }
        }
      } else {
        forall j | 0 <= j < |Fields(s)|
          ensures ',' !in Fields(s)[j]
        {
          if j > 0 {
            assert Fields(s)[j] == rest[j - 1];
          }
        }
      }
    }
  }

  /** Cutting a line made of comma-free pieces gives those pieces back. */
  lemma {:induction false} FieldsJoin(fs: seq<string>)
    requires |fs| >= 1
    requires forall j :: 0 <= j < |fs| ==> ',' !in fs[j]
    ensures Fields(Join(fs)) == fs
    decreases |fs|, |fs[0]|
  {
    var head := fs[0];
    if |head| == 0 {
      if |fs| > 1 {
        FieldsJoin(fs[1..]);
        JoinEmptyHead(fs);
        assert [""] + fs[1..] == fs;
      }
    } else {
      var shorter := [head[1..]] + fs[1..];
      JoinNonEmptyHead(fs);
      FieldsJoin(shorter);
      assert [[head[0]] + shorter[0]] + shorter[1..] == fs by {
        assert [head[0]] + head[1..] == head;
      }
    }
  }

  /** A line whose first piece is empty starts with the comma that ends it. */
  lemma JoinEmptyHead(fs: seq<string>)
    requires |fs| > 1 && fs[0] == ""
    ensures |Join(fs)| > 0 && Join(fs)[0] == ',' && Join(fs)[1..] == Join(fs[1..])
  {
    assert Join(fs) == "," + Join(fs[1..]);
  }

  /** A line whose first piece is not empty starts with that piece's first character, and
      the rest of the line joins the rest of that piece with the later pieces. */
  lemma JoinNonEmptyHead(fs: seq<string>)
    requires |fs| >= 1 && |fs[0]| > 0
    requires forall j :: 0 <= j < |fs| ==> ',' !in fs[j]
    ensures |Join(fs)| > 0 && Join(fs)[0] == fs[0][0] && Join(fs)[0] != ','
    ensures var shorter := [fs[0][1..]] + fs[1..];
      && |shorter| == |fs| && |shorter[0]| < |fs[0]|
      && (forall j :: 0 <= j < |shorter| ==> ',' !in shorter[j])
      && Join(fs)[1..] == Join(shorter)
  {
    var head := fs[0];
    var shorter := [head[1..]] + fs[1..];
    assert head[0] in head;
    assert forall j :: 1 <= j < |shorter| ==> shorter[j] == fs[j];
    assert forall ch :: ch in head[1..] ==> ch in head;
    if |fs| == 1 {
      assert Join(fs)[1..] == Join(shorter);
    } else {
      assert Join(fs) == head + "," + Join(fs[1..]);
      assert Join(shorter) == head[1..] + "," + Join(fs[1..]);
    }
  }

  /** The pieces with the trailing empty ones removed. */
  function DropTrailingEmpty(fs: seq<string>): seq<string> {
    if |fs| > 0 && fs[|fs| - 1] == "" then DropTrailingEmpty(fs[..|fs| - 1]) else fs
  }

  /** `s.split(",")`: a line without a comma is the single piece s itself; otherwise the
      pieces between commas, with trailing empty pieces discarded. No piece holds a comma,
      there are at most one more pieces than commas, and a line with a comma never ends
      in an empty piece. */
  function Split(s: string): (pieces: seq<string>)
    ensures forall j :: 0 <= j < |pieces| ==> ',' !in pieces[j]
    ensures |pieces| <= Commas(s) + 1
    ensures ',' in s && |pieces| > 0 ==> pieces[|pieces| - 1] != ""
  {
    FieldsShape(s);
    DropTrailingEmptyPrefix(Fields(s));
    if ',' !in s then [s] else DropTrailingEmpty(Fields(s))
  }

  /** Dropping trailing empties keeps a prefix that does not end in an empty piece. */
  lemma {:induction false} DropTrailingEmptyPrefix(fs: seq<string>)
    ensures |DropTrailingEmpty(fs)| <= |fs| && DropTrailingEmpty(fs) == fs[..|DropTrailingEmpty(fs)|]
    ensures |DropTrailingEmpty(fs)| > 0 ==> DropTrailingEmpty(fs)[|DropTrailingEmpty(fs)| - 1] != ""
  {
    if |fs| > 0 && fs[|fs| - 1] == "" {
      DropTrailingEmptyPrefix(fs[..|fs| - 1]);
    }
  }

  /** Dropping trailing empties keeps a prefix, and leaves k >= 1 pieces exactly when piece
      k - 1 is non-empty and every later piece is empty. */
  lemma {:induction false} DropTrailingEmptyCount(fs: seq<string>, k: nat)
    requires k >= 1
    ensures |DropTrailingEmpty(fs)| <= |fs| && DropTrailingEmpty(fs) == fs[..|DropTrailingEmpty(fs)|]
    ensures |DropTrailingEmpty(fs)| == k <==>
      (|fs| >= k && fs[k - 1] != "" && forall j :: k <= j < |fs| ==> fs[j] == "")
  {
    if |fs| > 0 && fs[|fs| - 1] == "" {
      var init := fs[..|fs| - 1];
      DropTrailingEmptyCount(init, k);
      assert forall j :: 0 <= j < |init| ==> init[j] == fs[j];
    }
  }

  /** A line without a comma is one piece. */
  lemma {:induction false} FieldsWithoutComma(s: string)
    requires ',' !in s
    ensures Fields(s) == [s]
  {
    if |s| > 0 {
      assert s[0] in s;
      assert forall ch :: ch in s[1..] ==> ch in s;
      FieldsWithoutComma(s[1..]);
      assert [s[0]] + s[1..] == s;
    }
  }

  /** `s.split(",")` has exactly n >= 2 elements exactly when s, cut at every comma, has at
      least n pieces, piece n - 1 is non-empty and every later piece is empty. */
  lemma SplitCount(s: string, n: nat)
    requires n >= 2
    ensures |Split(s)| == n <==>
      (|Fields(s)| >= n && Fields(s)[n - 1] != "" && forall j :: n <= j < |Fields(s)| ==> Fields(s)[j] == "")
  {
    if ',' in s {
      DropTrailingEmptyCount(Fields(s), n);
    } else {
      FieldsWithoutComma(s);
    }
  }

  /** Java's whitespace for `trim`: every character up to and including the space. */
  predicate IsTrimmable(ch: char) {
    ch <= ' '
  }

  function TrimStart(s: string): string {
    if |s| > 0 && IsTrimmable(s[0]) then TrimStart(s[1..]) else s
  }

  function TrimEnd(s: string): string {
    if |s| > 0 && IsTrimmable(s[|s| - 1]) then TrimEnd(s[..|s| - 1]) else s
  }

  /** `s.trim()`: s without its leading and trailing characters up to the space. It is
      no longer than s, and it leaves s as it is exactly when s is empty or has a
      non-trimmable character at each end. */
  function Trim(s: string): (t: string)
    ensures |t| <= |s|
    ensures t == s <==> |s| == 0 || (!IsTrimmable(s[0]) && !IsTrimmable(s[|s| - 1]))
  {
    TrimStartShape(s);
    TrimEndShape(TrimStart(s));
    TrimEndShape(s);
    TrimEnd(TrimStart(s))
  }

  /** Trimming the start removes a prefix of trimmable characters and stops at a
      non-trimmable one. */
  lemma {:induction false} TrimStartShape(s: string)
    ensures |TrimStart(s)| <= |s| && TrimStart(s) == s[|s| - |TrimStart(s)|..]
    ensures forall j :: 0 <= j < |s| - |TrimStart(s)| ==> IsTrimmable(s[j])
    ensures |TrimStart(s)| > 0 ==> !IsTrimmable(TrimStart(s)[0])
  {
    if |s| > 0 && IsTrimmable(s[0]) {
      TrimStartShape(s[1..]);
      assert forall j :: 1 <= j < |s| ==> s[1..][j - 1] == s[j];
    }
  }

  /** Trimming the end removes a suffix of trimmable characters and stops at a
      non-trimmable one. */
  lemma {:induction false} TrimEndShape(s: string)
    ensures |TrimEnd(s)| <= |s| && TrimEnd(s) == s[..|TrimEnd(s)|]
    ensures forall j :: |TrimEnd(s)| <= j < |s| ==> IsTrimmable(s[j])
    ensures |TrimEnd(s)| > 0 ==> !IsTrimmable(TrimEnd(s)[|TrimEnd(s)| - 1])
  {
    if |s| > 0 && IsTrimmable(s[|s| - 1]) {
      TrimEndShape(s[..|s| - 1]);
    }
  }

  /** Trimming the end of a string that starts with a non-trimmable character keeps that
      start. */
  lemma TrimEndKeepsStart(s: string)
    requires |s| > 0 && !IsTrimmable(s[0])
    ensures |TrimEnd(s)| > 0 && TrimEnd(s)[0] == s[0]
  {
    TrimEndShape(s);
  }

  /** The trimmed string is a contiguous part of s whose ends are not trimmable. */
  lemma TrimShape(s: string)
    ensures |TrimStart(s)| <= |s| && |Trim(s)| <= |TrimStart(s)|
    ensures Trim(s) == s[|s| - |TrimStart(s)|..|s| - |TrimStart(s)| + |Trim(s)|]
    ensures |Trim(s)| > 0 ==> !IsTrimmable(Trim(s)[0]) && !IsTrimmable(Trim(s)[|Trim(s)| - 1])
  {
    var u := TrimStart(s);
    TrimStartShape(s);
    TrimEndShape(u);
    var i := |s| - |u|;
    assert Trim(s) == u[..|Trim(s)|];
    assert Trim(s) == s[i..i + |Trim(s)|];
    if |Trim(s)| > 0 {
      TrimEndKeepsStart(u);
    }
  }

  /** Trimming twice is trimming once. */
  lemma TrimIdempotent(s: string)
    ensures Trim(Trim(s)) == Trim(s)
  {
    var t := Trim(s);
    TrimShape(s);
    if |t| > 0 {
      assert TrimStart(t) == t;
      assert TrimEnd(t) == t;
    }
  }
}
