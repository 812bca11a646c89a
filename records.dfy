/**
  The two persisted record types of the newsletter backend: subscribers and
  newsletters, together with the email normalisation the subscriber schema
  applies (`lowercase: true, trim: true`).
 */
module Records {
  import opened JsStrings

  /** The subscriber status enumeration; the schema admits no other value. */
  datatype Status = Active | Unsubscribed | Pending

  /**
    A stored subscriber. `token` is the unsubscribe token ("" when absent);
    `signupDate` is in milliseconds. Preferences and engagement metadata are
    not modelled.
   */
  datatype Subscriber = Subscriber(email: string, name: string, status: Status, token: string, signupDate: int)

  /** A stored newsletter; `id` stands for the document's ObjectId, `date` is in milliseconds. */
  datatype Newsletter = Newsletter(
    id: nat, title: string, description: string, content: string,
    author: string, date: int, imageUrl: string)

  /**
    What a handler gets from `await req.json()` and the destructuring that
    follows: the fields it reads, or `Malformed` for any body whose parse or
    destructuring throws into the handler's catch block (text that is not
    JSON, or the JSON value `null`).
   */
  datatype JsonBody<T> = Malformed | Parsed(fields: T)

  /** An email in the form the schema stores: no capital letter, no whitespace at either end. */
  predicate IsNormalized(email: string) {
    && NoUpper(email)
    && (email == [] || (!IsJsWhitespace(email[0]) && !IsJsWhitespace(email[|email| - 1])))
  }

  /** What the schema setters make of an email: lower-cased, then trimmed. */
  function Normalize(email: string): (r: string)
    ensures |r| <= |email|
    ensures IsNormalized(r)
  {
    TrimmedLowerHasNoUpper(email);
    Trim(ToLower(email))
  }

  lemma TrimmedLowerHasNoUpper(email: string)
    ensures NoUpper(Trim(ToLower(email)))
  {
    var l := ToLower(email);
    var t := TrimStart(l);
    ToLowerNoUpper(email);
    NoUpperSlice(l, |l| - |t|, |l|);
    NoUpperSlice(t, 0, |TrimEnd(t)|);
  }

  /** Normalising an already normalised email changes nothing. */
  lemma NormalizeIdempotent(email: string)
    ensures Normalize(Normalize(email)) == Normalize(email)
  {
    var t := Trim(ToLower(email));
    TrimLowerCommute(ToLower(email));
    ToLowerIdempotent(email);
    TrimLowerCommute(t);
    assert ToLower(t) == Trim(ToLower(ToLower(email)));
    TrimIdempotent(ToLower(email));
  }

  /** The stored form is exactly what normalisation leaves unchanged. */
  lemma NormalizedIffFixed(email: string)
    ensures Normalize(email) == email <==> IsNormalized(email)
  {
    if IsNormalized(email) {
      assert ToLower(email) == email by {
        forall i | 0 <= i < |email| ensures ToLower(email)[i] == email[i] {
          assert !('A' <= email[i] <= 'Z');
        }
      }
      assert TrimStart(email) == email;
      assert TrimEnd(email) == email;
    }
  }

  /** The order of the two setters does not matter. */
  lemma NormalizeEitherOrder(email: string)
    ensures Normalize(email) == ToLower(Trim(email))
  {
    TrimLowerCommute(email);
  }
}
