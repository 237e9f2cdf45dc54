/** Classes of characters shared by the scanners. */
module Characters {
  predicate IsDigit(c: char) {
    '0' <= c <= '9'
  }
}
