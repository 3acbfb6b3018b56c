/** What the handlers hand to the MySQL driver besides the statement text. */
module Sql {

  /** A value bound to one `?` placeholder. */
  datatype Param = Null | Str(s: string)

  /** The LIKE pattern `%kw%` that matches any text containing `kw`. */
  function LikePattern(kw: string): string {
    "%" + kw + "%"
  }

  /** The pattern is the keyword between two `%` wildcards, so the keyword can be read back. */
  lemma LikePatternShape(kw: string)
    ensures |LikePattern(kw)| == |kw| + 2
    ensures LikePattern(kw)[0] == '%' && LikePattern(kw)[|kw| + 1] == '%'
    ensures LikePattern(kw)[1..|kw| + 1] == kw
  {
  }

  /** Different keywords give different patterns, so a pattern names its keyword. */
  lemma LikePatternInjective(a: string, b: string)
    ensures LikePattern(a) == LikePattern(b) <==> a == b
  {
    if LikePattern(a) == LikePattern(b) {
      LikePatternShape(a);
      LikePatternShape(b);
      assert a == LikePattern(a)[1..|a| + 1] == b;
    }
  }
}
