/** The version lookup of app/backend/get_version.py: the file app/__init__.py
    is read in text mode and searched, line by line, for the first line of
    the form  __version__ = 'x.y.z'  (either quote character on either side).
    The regular expression is modelled as a scan over the line starts of the
    text; `VersionLineAt` is the independent description of one match. */
module Version {
  import opened Wrappers

  /** The literal text the pattern demands at the start of a line. */
  const Prefix: string := "__version__ = "

  const NotFoundMessage: string := "Version string not found."
  const MissingFilePrefix: string := "Version file not found at "

  predicate IsQuote(c: char) {
    c == '\'' || c == '"'
  }

  predicate QuoteFree(s: string) {
    forall i :: 0 <= i < |s| ==> !IsQuote(s[i])
  }

  /** Where `^` matches in multi-line mode: the start of the text and every
      position right after a line feed. */
  predicate LineStart(s: string, p: nat)
    requires p <= |s|
  {
    p == 0 || s[p - 1] == '\n'
  }

  /** Python's text-mode read with universal newlines: "\r\n" and a lone
      "\r" both become "\n". */
  function TranslateNewlines(raw: string): (text: string)
    ensures '\r' !in text
    ensures |text| <= |raw|
  {
    if |raw| == 0 then []
    else if raw[0] == '\r' then
      if |raw| > 1 && raw[1] == '\n' then "\n" + TranslateNewlines(raw[2..])
      else "\n" + TranslateNewlines(raw[1..])
    else [raw[0]] + TranslateNewlines(raw[1..])
  }

  /** A file that already uses "\n" line ends reads back unchanged. */
  lemma {:induction false} TranslateNewlinesKeepsLf(raw: string)
    requires '\r' !in raw
    ensures TranslateNewlines(raw) == raw
  {
    if |raw| > 0 {
      assert raw[0] != '\r';
      assert '\r' !in raw[1..] by {
        forall i | 0 <= i < |raw[1..]| ensures raw[1..][i] != '\r' {
          assert raw[1..][i] == raw[i + 1];
        }
      }
      TranslateNewlinesKeepsLf(raw[1..]);
    }
  }

  /** A carriage return after \r-free text becomes one line feed, and so
      does a carriage return followed by a line feed; the text before it is
      kept. */
  lemma {:induction false} TranslateNewlinesCr(a: string, b: string)
    requires '\r' !in a
    ensures TranslateNewlines(a + "\r" + b) ==
      a + "\n" + TranslateNewlines(if |b| > 0 && b[0] == '\n' then b[1..] else b)
  {
    var s := a + "\r" + b;
    if a == [] {
      assert s == "\r" + b;
      if |b| > 0 && b[0] == '\n' {
        assert s[2..] == b[1..];
      } else {
        assert s[1..] == b;
      }
    } else {
      assert s[0] == a[0] && a[0] != '\r';
      assert s[1..] == a[1..] + "\r" + b;
      assert '\r' !in a[1..] by {
        forall i | 0 <= i < |a[1..]| ensures a[1..][i] != '\r' {
          assert a[1..][i] == a[i + 1];
        }
      }
      TranslateNewlinesCr(a[1..], b);
      assert a == [a[0]] + a[1..];
    }
  }

  /** The group `([^'"]*)` followed by a closing quote, tried at index i:
      the run of non-quote characters starting at i, provided a quote
      ends it.  The run may cross line feeds, as the character class does. */
  function QuotedRun(s: string, i: nat): (r: Option<string>)
    requires i <= |s|
    decreases |s| - i
    ensures r.Some? ==>
      && i + |r.value| < |s|
      && s[i..i + |r.value|] == r.value
      && QuoteFree(r.value)
      && IsQuote(s[i + |r.value|])
    ensures r.None? ==> forall j :: i <= j < |s| ==> !IsQuote(s[j])
  {
    if i == |s| then None
    else if IsQuote(s[i]) then Some([])
    else
      match QuotedRun(s, i + 1)
      case None => None
      case Some(v) => Some([s[i]] + v)
  }

  /** The pattern without its anchor, tried at index p. */
  function MatchAt(s: string, p: nat): (r: Option<string>)
    requires p <= |s|
    ensures LineStart(s, p) && r.Some? ==> VersionLineAt(s, p, r.value)
  {
    var k := p + |Prefix|;
    if k < |s| && s[p..k] == Prefix && IsQuote(s[k]) then QuotedRun(s, k + 1)
    else None
  }

  /** Independent description of one match: at line start p stand the
      prefix, a quote, the quote-free text v and another quote. */
  ghost predicate VersionLineAt(s: string, p: nat, v: string) {
    var k := p + |Prefix|;
    && k + 1 + |v| < |s|
    && LineStart(s, p)
    && s[p..k] == Prefix
    && IsQuote(s[k])
    && s[k + 1..k + 1 + |v|] == v
    && QuoteFree(v)
    && IsQuote(s[k + 1 + |v|])
  }

  ghost predicate NoVersionLineBefore(s: string, p: nat) {
    forall q: nat, w: string :: q < p ==> !VersionLineAt(s, q, w)
  }

  /** `re.search`: the leftmost line start from p on at which the pattern matches. */
  function SearchFrom(s: string, p: nat): (r: Option<string>)
    requires p <= |s|
    decreases |s| - p
    ensures r.Some? ==> QuoteFree(r.value)
  {
    var m := MatchAt(s, p);
    if LineStart(s, p) && m.Some? then m
    else if p == |s| then None
    else SearchFrom(s, p + 1)
  }

  /** The content-to-version part of get_version: the group of the first
      matching line, or None when no line matches. */
  function FindVersion(content: string): (r: Option<string>)
    ensures r.Some? ==> exists p: nat :: VersionLineAt(content, p, r.value) && NoVersionLineBefore(content, p)
    ensures r.None? ==> forall p: nat, v: string :: !VersionLineAt(content, p, v)
  {
    var r := SearchFrom(content, 0);
    if r.Some? then SearchFromFinds(content, 0, r.value); r
    else SearchFromMisses(content, 0); r
  }

  /** get_version: `file` is the raw content of app/__init__.py, or None
      when the file does not exist; `path` is where it was looked for. */
  function GetVersion(file: Option<string>, path: string): (r: Result<string, string>)
    ensures file.None? ==> r == Failure(MissingFilePrefix + path)
    ensures file.Some? && r.Failure? ==> r.error == NotFoundMessage
    ensures file.Some? ==> (r.Success? <==> FindVersion(TranslateNewlines(file.value)).Some?)
    ensures file.Some? && r.Success? ==> r.value == FindVersion(TranslateNewlines(file.value)).value
    ensures r.Success? ==> QuoteFree(r.value)
  {
    match file
    case None => Failure(MissingFilePrefix + path)
    case Some(raw) =>
      match FindVersion(TranslateNewlines(raw))
      case Some(v) => Success(v)
      case None => Failure(NotFoundMessage)
  }

  // ---------------------------------------------------------------------
  // Correctness of the scan against VersionLineAt

  /** The text between the quotes is determined by the position. */
  lemma MatchAtIff(s: string, p: nat, v: string)
    requires p <= |s|
    ensures (LineStart(s, p) && MatchAt(s, p) == Some(v)) <==> VersionLineAt(s, p, v)
  {
    var k := p + |Prefix|;
    if VersionLineAt(s, p, v) {
      var r := QuotedRun(s, k + 1);
      if r.Some? {
        var w := r.value;
        if |w| != |v| {
          assert false;
        }
        assert w == v;
      }
    }
  }

  lemma {:induction false} SearchFromFinds(s: string, p: nat, v: string)
    requires p <= |s|
    requires SearchFrom(s, p) == Some(v)
    decreases |s| - p
    ensures exists q: nat :: (p <= q <= |s| && VersionLineAt(s, q, v)
      && forall q': nat, w: string :: p <= q' < q ==> !VersionLineAt(s, q', w))
  {
    if LineStart(s, p) && MatchAt(s, p).Some? {
      MatchAtIff(s, p, v);
    } else {
      SearchFromFinds(s, p + 1, v);
      var q: nat :| p + 1 <= q <= |s| && VersionLineAt(s, q, v)
        && forall q': nat, w: string :: p + 1 <= q' < q ==> !VersionLineAt(s, q', w);
      forall w: string ensures !VersionLineAt(s, p, w) {
        MatchAtIff(s, p, w);
      }
    }
  }

  lemma {:induction false} SearchFromMisses(s: string, p: nat)
    requires p <= |s|
    requires SearchFrom(s, p) == None
    decreases |s| - p
    ensures forall q: nat, w: string :: p <= q ==> !VersionLineAt(s, q, w)
  {
    forall w: string ensures !VersionLineAt(s, p, w) {
      MatchAtIff(s, p, w);
    }
    if p < |s| {
      SearchFromMisses(s, p + 1);
    }
    forall q: nat, w: string | p <= q ensures !VersionLineAt(s, q, w) {
      if q > |s| {
        assert !(q + |Prefix| + 1 + |w| < |s|);
      }
    }
  }

  /** The version found is that of the first line, in file order, that has
      the form; and such a line yields exactly that version. */
  lemma FindVersionCorrect(s: string, v: string)
    ensures FindVersion(s) == Some(v) <==>
      exists p: nat :: VersionLineAt(s, p, v) && NoVersionLineBefore(s, p)
  {
    if p: nat :| VersionLineAt(s, p, v) && NoVersionLineBefore(s, p) {
      var r := FindVersion(s);
      var q: nat :| VersionLineAt(s, q, r.value) && NoVersionLineBefore(s, q);
      assert q == p;
      MatchAtIff(s, p, v);
      MatchAtIff(s, p, r.value);
    }
  }

  /** No version is found exactly when no line has the form. */
  lemma FindVersionNone(s: string)
    ensures FindVersion(s) == None <==> forall p: nat, v: string :: !VersionLineAt(s, p, v)
  {
    if FindVersion(s) == None {
      SearchFromMisses(s, 0);
    } else {
      SearchFromFinds(s, 0, FindVersion(s).value);
    }
  }

  /** The closing quote need not match the opening one. */
  lemma MixedQuotes()
    ensures FindVersion("__version__ = '1.0\"") == Some("1.0")
  {
    var s := "__version__ = '1.0\"";
    assert s[0..|Prefix|] == Prefix;
    assert s[15..18] == "1.0";
    assert VersionLineAt(s, 0, "1.0");
    FindVersionCorrect(s, "1.0");
  }

  /** Empty quotes give the empty version; trailing text is ignored. */
  lemma EmptyVersion()
    ensures FindVersion("__version__ = '' # none") == Some("")
  {
    var s := "__version__ = '' # none";
    assert s[0..|Prefix|] == Prefix;
    assert VersionLineAt(s, 0, "");
    FindVersionCorrect(s, "");
  }

  /** An indented line does not start with the prefix, so it does not match. */
  lemma IndentedLineIgnored()
    ensures FindVersion(" __version__ = '1.0'") == None
  {
    var s := " __version__ = '1.0'";
    forall p: nat, v: string ensures !VersionLineAt(s, p, v) {
      if p == 0 {
        assert s[0] != Prefix[0];
      }
    }
    FindVersionNone(s);
  }

  /** Exactly one space is required on each side of the equals sign. */
  lemma UnspacedLineIgnored()
    ensures FindVersion("__version__='1.0'") == None
  {
    var s := "__version__='1.0'";
    forall p: nat, v: string ensures !VersionLineAt(s, p, v) {
      if p == 0 {
        assert s[11] != Prefix[11];
      }
    }
    FindVersionNone(s);
  }
}
