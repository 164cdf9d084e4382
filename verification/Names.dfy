// The names that the scanner produces, and those that the library accepts.
module Names {
  import opened Settings

  // The scanner's pattern for a name: [A-Za-z0-9\*][-A-Za-z0-9_\*.]*.
  predicate IsLexeme(s: string)
  {
    && s != ""
    && ('A' <= s[0] <= 'Z' || 'a' <= s[0] <= 'z' || '0' <= s[0] <= '9' || s[0] == '*')
    && forall i {:trigger s[i]} :: 0 < i < |s| ==>
         || s[i] == '-' || 'A' <= s[i] <= 'Z' || 'a' <= s[i] <= 'z' || '0' <= s[i] <= '9'
         || s[i] == '_' || s[i] == '*' || s[i] == '.'
  }

  // The scanner's names are just the accepted ones without apostrophes; the others cannot be
  // spelled in a file.
  lemma LexemesAreValid(s: string)
    ensures IsLexeme(s) <==> ValidName(s) && '\'' !in s
  {
    if ValidName(s) && '\'' !in s {
      forall i | 0 < i < |s|
        ensures s[i] != '\''
      {
        assert s[i] in s;
      }
    }
  }

  // An apostrophe is as good as a hyphen.
  lemma ApostropheIsValid(s: string, i: nat)
    requires 0 < i < |s| && s[i] == '\''
    ensures ValidName(s) <==> ValidName(s[i := '-'])
  {
    var t := s[i := '-'];
    assert t[0] == s[0] && t[i] == '-';
    if ValidName(t) {
      assert forall j {:trigger s[j]} :: 0 < j < |s| && j != i ==> s[j] == t[j];
    }
  }
}
