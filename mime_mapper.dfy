/**
 * DefaultMimeMapper: a mutable table from lower-case file extensions to MIME
 * types, the set of MIME types it regards as known, a default type and two
 * switches (fall back to the default type; accept unknown types).
 */
module MimeMapping {
  import opened Wrappers
  import opened Errors
  import opened Java

  /** A representative part of the built-in table (the library ships about a thousand entries). */
  function DefaultTable(): map<string, string>
  {
    map[
      "json" := "application/json",
      "doc" := "application/msword",
      "dot" := "application/msword",
      "pdf" := "application/pdf",
      "zip" := "application/zip",
      "tar" := "application/x-tar",
      "gz" := "application/gzip",
      "gif" := "image/gif",
      "jpeg" := "image/jpeg",
      "jpg" := "image/jpeg",
      "png" := "image/png",
      "csv" := "text/csv",
      "html" := "text/html",
      "htm" := "text/html",
      "txt" := "text/plain"
    ]
  }

  /**
   * The extension of a file name: the lower-cased text after its last dot,
   * or "" when there is no dot or the dot is the last character.
   */
  function FileExtension(fileName: string): (ext: string)
    ensures ext == "" <==> ('.' !in fileName || fileName[|fileName| - 1] == '.')
    ensures ext != "" ==>
      var k := |fileName| - |ext|;
      0 < k && fileName[k - 1] == '.'
      && (forall i | k <= i < |fileName| :: fileName[i] != '.')
      && ext == ToLowerCase(fileName[k..])
  {
    var dot := LastIndexOf(fileName, '.');
    if dot == -1 || dot == |fileName| - 1 then "" else ToLowerCase(fileName[dot + 1..])
  }

  /** The key addOrUpdateMimeType stores an extension under. */
  function NormalizeExtension(extension: string): string
  {
    ToLowerCase(Trim(extension))
  }

  /**
   * The known MIME types after mapping key to mimeType: the type the key was
   * mapped to is forgotten, even when another extension still maps to it.
   */
  function UpdatedKnown(mappings: map<string, string>, known: set<string>, key: string, mimeType: string): set<string>
  {
    (if key in mappings then known - {mappings[key]} else known) + {mimeType}
  }

  class DefaultMimeMapper {
    var mimeTypeMap: map<string, string>
    var mimeTypes: set<string>
    var defaultMimeType: string
    var allowFallbackMimeType: bool
    var allowUnknownMimeType: bool

    /** Every known MIME type is the target of some mapping. */
    predicate Valid()
      reads this
    {
      mimeTypes <= mimeTypeMap.Values
    }

    constructor ()
      ensures Valid()
      ensures mimeTypeMap == DefaultTable() && mimeTypes == DefaultTable().Values
      ensures defaultMimeType == "application/octet-stream"
      ensures !allowFallbackMimeType && !allowUnknownMimeType
    {
      defaultMimeType := "application/octet-stream";
      allowFallbackMimeType := false;
      allowUnknownMimeType := false;
      mimeTypeMap := DefaultTable();
      mimeTypes := DefaultTable().Values;
    }

    /**
     * getMimeType: the type mapped to the file's extension; failing that the
     * default type when fallback is on; otherwise an error.  A missing or
     * blank name, or a name without an extension, is an error.
     */
    function GetMimeType(fileName: Option<string>): (r: Result<string, Error>)
      reads this
      ensures fileName.None? || IsBlank(fileName.value) ==>
        r == Err(IllegalArgument("File name must not be null, empty, or contain only whitespace."))
      ensures r.Ok? <==>
        fileName.Some? && !IsBlank(fileName.value) && FileExtension(fileName.value) != ""
        && (FileExtension(fileName.value) in mimeTypeMap || allowFallbackMimeType)
      ensures r.Ok? && FileExtension(fileName.value) in mimeTypeMap ==>
        r.value == mimeTypeMap[FileExtension(fileName.value)]
      ensures r.Ok? && FileExtension(fileName.value) !in mimeTypeMap ==> r.value == defaultMimeType
    {
      if fileName.None? || IsBlank(fileName.value) then
        Err(IllegalArgument("File name must not be null, empty, or contain only whitespace."))
      else
        var extension := FileExtension(fileName.value);
        if extension == "" then
          Err(IllegalArgument("File extension could not be determined from '" + fileName.value + "'."))
        else if extension in mimeTypeMap then
          Ok(mimeTypeMap[extension])
        else if allowFallbackMimeType then
          Ok(defaultMimeType)
        else
          Err(IllegalArgument("MIME type could not be determined for '" + fileName.value
                              + "'. Provide a MIME type explicitly or enable fallback."))
    }

    /** isValidMimeType: a type is valid when it is known, or when unknown types are allowed. */
    function IsValidMimeType(mimeType: Option<string>): (r: Result<bool, Error>)
      reads this
      ensures r.Err? <==> mimeType.None? || IsBlank(mimeType.value)
      ensures r.Ok? ==> (r.value <==> mimeType.value in mimeTypes || allowUnknownMimeType)
    {
      if mimeType.None? || IsBlank(mimeType.value) then
        Err(IllegalArgument("MIME type must not be null, empty, or contain only whitespace."))
      else
        Ok(mimeType.value in mimeTypes || allowUnknownMimeType)
    }

    /**
     * addOrUpdateMimeType: maps the trimmed, lower-cased extension to the
     * type, makes the type known, forgets the type it replaces, and reports
     * whether the extension was new.
     */
    method AddOrUpdateMimeType(extension: Option<string>, mimeType: Option<string>) returns (r: Result<bool, Error>)
      requires Valid()
      modifies this
      ensures Valid()
      ensures r.Err? <==> extension.None? || IsBlank(extension.value) || mimeType.None? || IsBlank(mimeType.value)
      ensures extension.None? || IsBlank(extension.value) ==>
        r == Err(IllegalArgument("Extension must not be null, empty, or contain only whitespace."))
      ensures r.Err? ==> mimeTypeMap == old(mimeTypeMap) && mimeTypes == old(mimeTypes)
      ensures r.Ok? ==>
        var key := NormalizeExtension(extension.value);
        && r.value == (key !in old(mimeTypeMap))
        && mimeTypeMap == old(mimeTypeMap)[key := mimeType.value]
        && mimeTypes == UpdatedKnown(old(mimeTypeMap), old(mimeTypes), key, mimeType.value)
      ensures defaultMimeType == old(defaultMimeType)
      ensures allowFallbackMimeType == old(allowFallbackMimeType)
      ensures allowUnknownMimeType == old(allowUnknownMimeType)
    {
      if extension.None? || IsBlank(extension.value) {
        return Err(IllegalArgument("Extension must not be null, empty, or contain only whitespace."));
      }
      if mimeType.None? || IsBlank(mimeType.value) {
        return Err(IllegalArgument("MIME type must not be null, empty, or contain only whitespace."));
      }
      var key := NormalizeExtension(extension.value);
      var isNewEntry := key !in mimeTypeMap;
      if key in mimeTypeMap {
        mimeTypes := mimeTypes - {mimeTypeMap[key]};
      }
      KnownStayMapped(mimeTypeMap, old(mimeTypes), key, mimeType.value);
      mimeTypeMap := mimeTypeMap[key := mimeType.value];
      mimeTypes := mimeTypes + {mimeType.value};
      r := Ok(isNewEntry);
    }

    /** getMimeTypeMappings: a copy of the table that later updates do not affect. */
    method GetMimeTypeMappings() returns (snapshot: map<string, string>)
      ensures snapshot == mimeTypeMap
    {
      snapshot := mimeTypeMap;
    }

    method SetDefaultMimeType(mimeType: string)
      modifies this
      ensures defaultMimeType == mimeType
      ensures mimeTypeMap == old(mimeTypeMap) && mimeTypes == old(mimeTypes)
      ensures allowFallbackMimeType == old(allowFallbackMimeType) && allowUnknownMimeType == old(allowUnknownMimeType)
    {
      defaultMimeType := mimeType;
    }

    method SetAllowFallbackMimeType(allow: bool)
      modifies this
      ensures allowFallbackMimeType == allow
      ensures mimeTypeMap == old(mimeTypeMap) && mimeTypes == old(mimeTypes)
      ensures defaultMimeType == old(defaultMimeType) && allowUnknownMimeType == old(allowUnknownMimeType)
    {
      allowFallbackMimeType := allow;
    }

    method SetAllowUnknownMimeType(allow: bool)
      modifies this
      ensures allowUnknownMimeType == allow
      ensures mimeTypeMap == old(mimeTypeMap) && mimeTypes == old(mimeTypes)
      ensures defaultMimeType == old(defaultMimeType) && allowFallbackMimeType == old(allowFallbackMimeType)
    {
      allowUnknownMimeType := allow;
    }
  }

  /** An update keeps every known type the target of some mapping. */
  lemma KnownStayMapped(mappings: map<string, string>, known: set<string>, key: string, mimeType: string)
    requires known <= mappings.Values
    ensures UpdatedKnown(mappings, known, key, mimeType) <= mappings[key := mimeType].Values
  {
    var updated := mappings[key := mimeType];
    forall t | t in UpdatedKnown(mappings, known, key, mimeType)
      ensures t in updated.Values
    {
      if t == mimeType {
        assert updated[key] == t;
      } else {
        assert t in known && (key in mappings ==> t != mappings[key]);
        var k :| k in mappings && mappings[k] == t;
        assert k != key && updated[k] == t;
      }
    }
  }

  /**
   * The update can make a type unknown that the table still maps to:
   * re-mapping "doc" forgets application/msword although "dot" still maps to it.
   */
  lemma UpdateForgetsSharedType()
    ensures var after := DefaultTable()["doc" := "application/vnd.ms-word"];
      && after["dot"] == "application/msword"
      && "application/msword" !in UpdatedKnown(DefaultTable(), DefaultTable().Values, "doc", "application/vnd.ms-word")
  {
  }

  /**
   * A name's extension does not depend on its letter case, so neither does
   * the MIME type it is given.
   */
  lemma ExtensionIgnoresCase(fileName: string)
    ensures FileExtension(ToLowerCase(fileName)) == FileExtension(fileName)
  {
    var lower := ToLowerCase(fileName);
    LastDotIgnoresCase(fileName);
    var dot := LastIndexOf(fileName, '.');
    if dot != -1 && dot != |fileName| - 1 {
      var tail := fileName[dot + 1..];
      assert lower[dot + 1..] == ToLowerCase(tail) by {
        assert forall i | 0 <= i < |tail| :: lower[dot + 1..][i] == LowerChar(tail[i]);
      }
      LowerCaseIdempotent(tail);
    }
  }

  lemma {:induction false} LastDotIgnoresCase(s: string)
    ensures LastIndexOf(ToLowerCase(s), '.') == LastIndexOf(s, '.')
    decreases |s|
  {
    if |s| > 0 {
      assert ToLowerCase(s)[..|s| - 1] == ToLowerCase(s[..|s| - 1]);
      LastDotIgnoresCase(s[..|s| - 1]);
    }
  }

  lemma MimeTypeIgnoresCase(m: DefaultMimeMapper, fileName: string)
    ensures m.GetMimeType(Some(ToLowerCase(fileName))).Ok? == m.GetMimeType(Some(fileName)).Ok?
    ensures m.GetMimeType(Some(fileName)).Ok? ==>
      m.GetMimeType(Some(ToLowerCase(fileName))).value == m.GetMimeType(Some(fileName)).value
  {
    ExtensionIgnoresCase(fileName);
    LowerCaseKeepsWhitespace(fileName);
  }

  /** With the built-in table, an upper-case PDF name resolves to application/pdf. */
  lemma UpperCasePdfResolves(m: DefaultMimeMapper)
    requires m.mimeTypeMap == DefaultTable()
    ensures m.GetMimeType(Some("Report.PDF")) == Ok("application/pdf")
  {
    var pdf := "Report.PDF";
    assert pdf[6] == '.' && pdf[7] != '.' && pdf[8] != '.' && pdf[9] != '.';
    assert LastIndexOf(pdf, '.') == 6;
    assert ToLowerCase(pdf[7..]) == "pdf" by {
      assert pdf[7..] == "PDF";
      var lower := ToLowerCase("PDF");
      assert lower[0] == 'p' && lower[1] == 'd' && lower[2] == 'f';
    }
    assert !IsBlank(pdf) by { assert !IsWhitespace(pdf[0]); }
    assert "pdf" in DefaultTable() && DefaultTable()["pdf"] == "application/pdf";
  }

  /** With fallback off, a name whose extension is unmapped, or which has none, is refused. */
  lemma UnmappedNamesFail(m: DefaultMimeMapper)
    requires m.mimeTypeMap == DefaultTable() && !m.allowFallbackMimeType
    ensures m.GetMimeType(Some("archive.qqq")).Err?
    ensures m.GetMimeType(Some("README")).Err?
  {
    var qqq := "archive.qqq";
    assert qqq[7] == '.' && qqq[8] != '.' && qqq[9] != '.' && qqq[10] != '.';
    assert LastIndexOf(qqq, '.') == 7;
    assert ToLowerCase(qqq[8..]) == "qqq" by {
      assert qqq[8..] == "qqq";
    }
    assert "qqq" !in DefaultTable();
    var readme := "README";
    assert '.' !in readme;
  }

  /**
   * An extension made only of control characters is not blank, but trims to
   * the empty key, which getMimeType never looks up (FileExtension's "" is
   * rejected before the table is consulted).
   */
  lemma ControlCharacterExtension()
    ensures !IsBlank("\U{1}") && NormalizeExtension("\U{1}") == ""
  {
    assert !IsWhitespace("\U{1}"[0]);
  }
}
