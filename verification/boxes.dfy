/** Bounding boxes: Tesseract reports four coordinates, pyocr uses two corners. */
module Boxes {

  /** (left, top, right, bottom) as the page iterator reports it. */
  type TessBox = (int, int, int, int)

  /** ((left, top), (right, bottom)): the upper-left and lower-right corners. */
  type PyocrBox = ((int, int), (int, int))

  /** Flattens a two-corner box back into four coordinates. */
  function PyocrBoxToTessBox(box: PyocrBox): TessBox
  {
    (box.0.0, box.0.1, box.1.0, box.1.1)
  }

  /** _tess_box_to_pyocr_box: regroups the four coordinates into two corners,
      losing nothing. */
  function TessBoxToPyocrBox(box: TessBox): (r: PyocrBox)
    ensures PyocrBoxToTessBox(r) == box
  {
    ((box.0, box.1), (box.2, box.3))
  }

  /** The regrouping is a bijection: distinct boxes stay distinct. */
  lemma TessBoxToPyocrBoxInjective(a: TessBox, b: TessBox)
    ensures TessBoxToPyocrBox(a) == TessBoxToPyocrBox(b) ==> a == b
  {
    if TessBoxToPyocrBox(a) == TessBoxToPyocrBox(b) {
      calc {
        a;
        PyocrBoxToTessBox(TessBoxToPyocrBox(a));
        PyocrBoxToTessBox(TessBoxToPyocrBox(b));
        b;
      }
    }
  }

  /** Every two-corner box comes from exactly one four-coordinate box. */
  lemma PyocrBoxRoundTrip(box: PyocrBox)
    ensures TessBoxToPyocrBox(PyocrBoxToTessBox(box)) == box
  {
  }
}
