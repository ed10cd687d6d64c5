/** The user message sent with a review request. */
module Prompt {
  import opened ReviewTypes

  /** The text before the code: the language tag, a blank line and a
      fenced-block opener labelled with the language tag. */
  function QueryPrefix(language: string): string {
    "Review the following " + language + " code:\n\n```" + language + "\n"
  }

  /** The text after the code: a newline and the closing fence. */
  const QuerySuffix: string := "\n```"

  /** The user query of a review request for `code` written in `language`. */
  function UserQuery(language: string, code: string): (q: string)
    ensures |q| == |QueryPrefix(language)| + |code| + |QuerySuffix|
    ensures q[..|QueryPrefix(language)|] == QueryPrefix(language)
    ensures q[|QueryPrefix(language)|..|q| - |QuerySuffix|] == code
    ensures q[|q| - |QuerySuffix|..] == QuerySuffix
  {
    QueryPrefix(language) + code + QuerySuffix
  }

  /** Reads back the code embedded in a user query for `language`. */
  function QueryCode(language: string, q: string): Option<string> {
    var p := QueryPrefix(language);
    if |p| + |QuerySuffix| <= |q| && q[..|p|] == p && q[|q| - |QuerySuffix|..] == QuerySuffix
    then Some(q[|p|..|q| - |QuerySuffix|])
    else None
  }

  /** The submitted code is embedded verbatim: it can be read back from the query. */
  lemma QueryCodeOfUserQuery(language: string, code: string)
    ensures QueryCode(language, UserQuery(language, code)) == Some(code)
  {
  }

  /** Every string the reader accepts is the query of the code it reads. */
  lemma UserQueryOfQueryCode(language: string, q: string)
    ensures QueryCode(language, q).Some? ==> UserQuery(language, QueryCode(language, q).value) == q
  {
    var p := QueryPrefix(language);
    if QueryCode(language, q).Some? {
      var code := QueryCode(language, q).value;
      assert q == q[..|p|] + q[|p|..|q| - |QuerySuffix|] + q[|q| - |QuerySuffix|..];
    }
  }
}
