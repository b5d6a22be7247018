/** The interface-name pattern every mutable input is held to. */
module Names {
  predicate IsNameChar(c: char) {
    'A' <= c <= 'Z' || 'a' <= c <= 'z' || '0' <= c <= '9' || c in {'_', '.', ':', '-'}
  }

  /** `^[A-Za-z0-9_.:-]{1,15}$` */
  predicate IsValidName(name: string) {
    1 <= |name| <= 15 && forall i :: 0 <= i < |name| ==> IsNameChar(name[i])
  }
}
