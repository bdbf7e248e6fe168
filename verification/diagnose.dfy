/** The connection diagnostics: the credential split of a `mongodb+srv://`
    connection string, and the classification of a connection error message into
    the advice printed for it. The printing itself is not modelled. */
module Diagnose {
  import opened Common
  import Strings

  const Scheme: string := "mongodb+srv://"

  /** What the credential check reports for `MONGO_URI`. */
  datatype CredentialReport =
      /** The variable is empty or unset: the script stops. */
    | MissingUri
      /** No `mongodb+srv://` anywhere in the string. */
    | FormatWarning
      /** No `@`, or no `:` before the first `@`: nothing is printed. */
    | NoCredentials
    | Credentials(username: string, encodedPassword: string)

  /** The part after the scheme is removed: every occurrence of it, anywhere. */
  function Rest(uri: string): (r: string) {
    Strings.RemoveAll(uri, Scheme)
  }

  /** `parts[0]` of `rest.split('@')`: the text before the first `@`. */
  function AuthPart(rest: string): (r: string)
    ensures Strings.IsPrefix(r, rest) && '@' !in r
    ensures |r| == |rest| || rest[|r|] == '@'
  {
    rest[..Strings.FirstIndex(rest, '@')]
  }

  /** The credential extraction: only when the scheme occurs somewhere and the rest
      has an `@`; the username runs to the first `:` of the auth part, and the
      password is everything after it. */
  function InspectUri(uri: string): (r: CredentialReport)
    ensures r == MissingUri <==> uri == ""
    ensures r == FormatWarning <==> uri != "" && !Strings.Contains(uri, Scheme)
    ensures r.Credentials? <==>
      uri != "" && Strings.Contains(uri, Scheme) && '@' in Rest(uri) && ':' in AuthPart(Rest(uri))
    ensures r.Credentials? ==>
      && AuthPart(Rest(uri)) == r.username + ":" + r.encodedPassword
      && ':' !in r.username && '@' !in r.username && '@' !in r.encodedPassword
  {
    if uri == "" then MissingUri
    else if !Strings.Contains(uri, Scheme) then FormatWarning
    else
      var rest := Rest(uri);
      if Strings.FirstIndex(rest, '@') == |rest| then NoCredentials
      else
        var auth := AuthPart(rest);
        var colon := Strings.FirstIndex(auth, ':');
        if colon == |auth| then NoCredentials
        else
          assert auth == auth[..colon] + ":" + auth[colon + 1..];
          Credentials(auth[..colon], auth[colon + 1..])
  }

  /** The first index of `c` in `a + [c] + b`, when `a` has no `c`, is `|a|`. */
  lemma FirstIndexAfter(a: string, c: char, b: string)
    requires c !in a
    ensures Strings.FirstIndex(a + [c] + b, c) == |a|
  {
    assert (a + [c] + b)[|a|] == c;
  }

  /** Removing the scheme from the front of a tail that does not contain it
      leaves the tail. */
  lemma RestAfterScheme(tail: string)
    requires !Strings.Contains(tail, Scheme)
    ensures Strings.Contains(Scheme + tail, Scheme)
    ensures Rest(Scheme + tail) == tail
  {
    assert Strings.IsPrefix(Scheme, Scheme + tail);
    Strings.RemoveAllLeading(Scheme, tail);
  }

  /** The auth part of `user:password@host` is `user:password`. */
  lemma AuthPartOf(auth: string, host: string)
    requires '@' !in auth
    ensures '@' in auth + "@" + host
    ensures AuthPart(auth + "@" + host) == auth
  {
    assert auth + "@" + host == auth + ['@'] + host;
    FirstIndexAfter(auth, '@', host);
    assert (auth + "@" + host)[|auth|] == '@';
  }

  /** A well-formed connection string yields exactly its username and (still
      encoded) password; the password may itself contain `:`. */
  lemma {:induction false} InspectCredentials(user: string, password: string, host: string)
    requires ':' !in user && '@' !in user && '@' !in password
    requires !Strings.Contains(user + ":" + password + "@" + host, Scheme)
    ensures InspectUri(Scheme + user + ":" + password + "@" + host) == Credentials(user, password)
  {
    var auth := user + ":" + password;
    var tail := auth + "@" + host;
    assert Scheme + user + ":" + password + "@" + host == Scheme + tail;
    RestAfterScheme(tail);
    AuthPartOf(auth, host);
    assert auth == user + [':'] + password;
    FirstIndexAfter(user, ':', password);
    assert auth[|user|] == ':';
    assert auth[..|user|] == user && auth[|user| + 1..] == password;
  }

  /** The advice a connection error gets. */
  datatype FailureClass = AuthFailure | NetworkFailure | UnknownFailure

  /** `phrase in error_msg.lower()`. */
  predicate Mentions(msg: string, phrase: string) {
    Strings.Contains(Strings.LowerAscii(msg), phrase)
  }

  predicate MentionsAuth(msg: string) {
    Mentions(msg, "authentication failed") || Mentions(msg, "bad auth")
  }

  predicate MentionsNetwork(msg: string) {
    Mentions(msg, "timeout") || Mentions(msg, "network")
  }

  /** The if/elif/else chain: authentication phrases win over network ones. */
  function ClassifyError(msg: string): (r: FailureClass)
    ensures r == AuthFailure <==> MentionsAuth(msg)
    ensures r == NetworkFailure <==> !MentionsAuth(msg) && MentionsNetwork(msg)
    ensures r == UnknownFailure <==> !MentionsAuth(msg) && !MentionsNetwork(msg)
  {
    if MentionsAuth(msg) then AuthFailure
    else if MentionsNetwork(msg) then NetworkFailure
    else UnknownFailure
  }

  /** The backend's startup hint: the same rule, with no hint for the rest. */
  function StartupHint(msg: string): (r: Option<FailureClass>)
    ensures r.None? <==> ClassifyError(msg) == UnknownFailure
    ensures r.Some? ==> r.value == ClassifyError(msg) && r.value != UnknownFailure
  {
    if MentionsAuth(msg) then Some(AuthFailure)
    else if MentionsNetwork(msg) then Some(NetworkFailure)
    else None
  }

  /** Lower-casing distributes over concatenation. */
  lemma LowerAsciiConcat(a: string, b: string)
    ensures Strings.LowerAscii(a + b) == Strings.LowerAscii(a) + Strings.LowerAscii(b)
  {
  }

  /** Any spelling of "authentication failed", in any case and anywhere in the
      message, classifies it as an authentication failure, whatever else it says. */
  lemma {:induction false} AuthAnywhere(pre: string, word: string, post: string)
    requires Strings.LowerAscii(word) == "authentication failed"
    ensures ClassifyError(pre + word + post) == AuthFailure
  {
    var low := Strings.LowerAscii(pre + word + post);
    LowerAsciiConcat(pre + word, post);
    LowerAsciiConcat(pre, word);
    assert low == Strings.LowerAscii(pre) + "authentication failed" + Strings.LowerAscii(post);
    assert Strings.OccursAt(low, "authentication failed", |pre|);
    Strings.ContainsIff(low, "authentication failed");
  }

  /** Classification ignores case. */
  lemma ClassifyIgnoresCase(msg: string)
    ensures ClassifyError(Strings.LowerAscii(msg)) == ClassifyError(msg)
  {
    Strings.LowerAsciiIdempotent(msg);
  }
}
