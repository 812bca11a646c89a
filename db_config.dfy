/**
  The MongoDB connection string as the TypeScript backend prepares it:
  invisible characters and line breaks a copy-paste may bring are removed,
  the result is trimmed, and `connectDB` refuses anything that does not
  start with a MongoDB scheme.
 */
module DbConfig {
  import opened Wrappers
  import opened JsStrings

  /** U+200B, U+200C, U+200D and U+FEFF, the first pattern the backend removes. */
  predicate IsZeroWidth(c: char) {
    c == '\U{200B}' || c == '\U{200C}' || c == '\U{200D}' || c == '\U{FEFF}'
  }

  /** The line breaks of the second pattern. */
  predicate IsLineBreak(c: char) {
    c == '\n' || c == '\r'
  }

  function SanitizeText(raw: string): (r: string)
    ensures forall i :: 0 <= i < |r| ==> !IsZeroWidth(r[i]) && !IsLineBreak(r[i])
    ensures r == [] || (!IsJsWhitespace(r[0]) && !IsJsWhitespace(r[|r| - 1]))
  {
    var s := RemoveAll(RemoveAll(raw, IsZeroWidth), IsLineBreak);
    TrimShape(s);
    Trim(s)
  }

  /** `process.env.MONGO_URI?.replace(...)?.replace(...)?.trim()`: an unset variable stays unset. */
  function SanitizeUri(raw: Option<string>): (r: Option<string>)
    ensures r.Some? <==> raw.Some?
  {
    if raw.Some? then Some(SanitizeText(raw.value)) else None
  }

  /** Sanitising a sanitised URI changes nothing. */
  lemma SanitizeIdempotent(raw: Option<string>)
    ensures SanitizeUri(SanitizeUri(raw)) == SanitizeUri(raw)
  {
    if raw.Some? {
      var t := SanitizeText(raw.value);
      RemoveAllNothingToDrop(t, IsZeroWidth);
      RemoveAllNothingToDrop(t, IsLineBreak);
      TrimIdempotent(RemoveAll(RemoveAll(raw.value, IsZeroWidth), IsLineBreak));
    }
  }

  /**
    A clean URI pasted with a leading byte-order mark and a trailing CR LF
    comes out exactly as it went in.
   */
  lemma SanitizeRemovesPasteDebris(uri: string)
    requires SanitizeText(uri) == uri
    ensures SanitizeText(['\U{FEFF}'] + uri + "\r\n") == uri
  {
    RemoveAllNothingToDrop(uri, IsZeroWidth);
    RemoveAllNothingToDrop(uri, IsLineBreak);
    DropLeadingMark(uri);
    DropTrailingBreaks(uri);
  }

  lemma DropLeadingMark(uri: string)
    ensures RemoveAll(['\U{FEFF}'] + uri + "\r\n", IsZeroWidth) == RemoveAll(uri, IsZeroWidth) + "\r\n"
  {
    RemoveAllConcat(['\U{FEFF}'] + uri, "\r\n", IsZeroWidth);
    RemoveAllConcat(['\U{FEFF}'], uri, IsZeroWidth);
    assert RemoveAll(['\U{FEFF}'], IsZeroWidth) == [];
    RemoveAllNothingToDrop("\r\n", IsZeroWidth);
  }

  lemma DropTrailingBreaks(s: string)
    ensures RemoveAll(s + "\r\n", IsLineBreak) == RemoveAll(s, IsLineBreak)
  {
    RemoveAllConcat(s, "\r\n", IsLineBreak);
    assert RemoveAll("\r\n", IsLineBreak) == [];
  }

  const InvalidUriMessage := "Invalid MONGO_URI: expected to start with \"mongodb://\" or \"mongodb+srv://\". Check your environment (.env.local) and restart the server."

  /** The scheme test of `connectDB`. */
  predicate IsValidUri(uri: Option<string>) {
    uri.Some? && (StartsWith(uri.value, "mongodb://") || StartsWith(uri.value, "mongodb+srv://"))
  }

  datatype ConnectStart = Connect(uri: string) | Throw(message: string)

  /** The first `connectDB` call without a cached connection: connect with the URI, or throw. */
  function StartConnect(uri: Option<string>): (r: ConnectStart)
    ensures r.Connect? <==> IsValidUri(uri)
    ensures r.Connect? ==> Some(r.uri) == uri
    ensures r.Throw? ==> r.message == InvalidUriMessage
  {
    if IsValidUri(uri) then Connect(uri.value) else Throw(InvalidUriMessage)
  }

  /** An unset MONGO_URI, or one lacking the scheme, is refused. */
  lemma MissingOrForeignSchemeRefused(raw: Option<string>)
    requires raw.None? || (!StartsWith(SanitizeText(raw.value), "mongodb://") && !StartsWith(SanitizeText(raw.value), "mongodb+srv://"))
    ensures StartConnect(SanitizeUri(raw)) == Throw(InvalidUriMessage)
  {
  }
}
