/** White space as the trimming of text understands it. */
module Whitespace {
  predicate White(ch: char) {
    || '\U{0009}' <= ch <= '\U{000d}' || ch == ' ' || ch == '\U{0085}' || ch == '\U{00a0}' || ch == '\U{1680}'
    || '\U{2000}' <= ch <= '\U{200a}' || ch == '\U{2028}' || ch == '\U{2029}' || ch == '\U{202f}' || ch == '\U{205f}'
      || ch == '\U{3000}'
  }

  predicate Blank(text: string) {
    forall i | 0 <= i < |text| :: White(text[i])
  }
}
