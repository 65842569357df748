/**
 * One row of the single `annotation.csv` file the three CSV converters write:
 * `label_name, bbox_x, bbox_y, bbox_width, bbox_height, image_name,
 * image_width, image_height`, the box given by its top-left corner and size.
 */
module AnnCsv {

  /** A box cell: Python writes an `int` as `7` and a `float` as `7.0`. */
  datatype Number = Int(i: int) | Float(r: real)

  datatype AnnRow = AnnRow(
    labelName: string,
    bboxX: Number,
    bboxY: Number,
    bboxWidth: Number,
    bboxHeight: Number,
    imageName: string,
    imageWidth: int,
    imageHeight: int)
}
