# Smoking / knife annotation converters, modelled in Dafny

The repository holds four small Python scripts that turn raw detection data into training annotations.

- `aihub_to_anncsv.py` reads an AI-Hub "smoking person" label (JSON: video info, events, per-frame corner boxes). It writes one `annotation.csv` row per smoking box and one PNG per frame inside an event window.
- `aihub_to_yolo/aihub_to_yolov8txt.py` reads the same labels. `JsonLabelParser` normalises each box by the frame size and rounds it to two decimals. `DatasetMaker` walks the video, counts the in-window frames and keeps every `extract_step`-th of them. It pairs the k-th counted frame with the k-th box, by position and not by frame number.
- `yolotxt_to_anncsv.py` turns a YOLO text label (`class xc yc w h`, fractions of the image size) into a "knife" row in whole pixels. A first line that does not hold five fields becomes class 5 with a zero box.
- `handlabeling_to_anncsv.py` lets a user pick a box with two left clicks. A mouse callback keeps the two points and two flags in shared dictionaries.

The Dafny modules follow those scripts.

| module | covers |
|---|---|
| `AihubLabel` | The JSON datatypes, `events_parser`, the smoking filter, the sort by frame and the corner-to-centre conversion. The two AI-Hub scripts share this code. |
| `AihubToAnnCsv` | The first script. |
| `AihubToYolo` | The second script. `DatasetMaker` is a class and `generate_dataset` a looping method proved against a recursive specification `Run`. `Run` is in turn proved equal to a closed-form reference based on positions among the in-window frames. |
| `YoloTxtToAnnCsv` | The third script. |
| `HandLabeling` | The click state machine as a function and as a class whose method updates the flags in place. |
| `VideoIdentifier` | The fixed-width `dd-dd-dd_[a-z]` identifier scan. |
| `PyNum`, `PyStr` | The Python built-ins the scripts rely on: `int()` truncation, `//` and `%` (floor semantics), `round(x, 2)`, `str(int)`, `int()`/`float()` on tokens, `strip`, `split`, `readline`, `os.path.basename`/`splitext`, `split('.')[0]`. |
| `StableSort` | Python's stable `sorted(key=...)`. |
| `Wrappers` | `Option` and `Result`. |
| `AnnCsv` | The CSV row. |

The video is represented by the frame numbers it reports. Whether the video opens, which files exist and the image sizes are parameters. A written file is represented by its path, and for YOLO labels by the values written.

The identifier the code extracts from `C_1_31_jap_cl_09-01_17-16-00_b_set_DF2.mp4` is `171600_b`. Only the dashes are removed and the underscore stays. The docstrings of both AI-Hub scripts say `171600b`; the model follows the code (`VideoIdentifier.DatasetExample`).

## Model

| member | source | states |
|---|---|---|
| AihubLabel.ParseEvents | aihub_to_anncsv.py:29-36 | A window is in the result iff some event with object id 1 has that start and end; the result is those events' windows in input order. `JsonLabelParser._events_parser` (aihub_to_yolo/aihub_to_yolov8txt.py:75-82) is the same code. |
| AihubLabel.EventWindowsAppend | aihub_to_yolo/aihub_to_yolov8txt.py:75-82 | Parsing the events of two lists concatenated gives the concatenation of their windows, so input order is kept. |
| AihubLabel.EventWindowsMembers | aihub_to_anncsv.py:31-35 | Membership in the parsed windows is exactly "comes from an event with object id 1". |
| AihubLabel.SortedWindowsProperties | aihub_to_yolo/aihub_to_yolov8txt.py:32-33 | The stored event frames are sorted by start frame, are a permutation of the parsed windows, and windows with equal starts keep their input order. |
| AihubLabel.InWindows | aihub_to_anncsv.py:123 | A frame qualifies iff `start <= f <= end` for at least one window; windows may overlap. |
| AihubLabel.InWindowsPermutation | aihub_to_yolo/aihub_to_yolov8txt.py:137 | Membership depends only on the multiset of windows. |
| AihubLabel.InSortedWindows | aihub_to_yolo/aihub_to_yolov8txt.py:33 | Sorting the windows does not change which frames qualify. |
| AihubLabel.Qualifying | aihub_to_yolo/aihub_to_yolov8txt.py:137 | Every frame kept lies in some window, and there are no more of them than frames. |
| AihubLabel.QualifyingAppend | aihub_to_yolo/aihub_to_yolov8txt.py:131-137 | The in-window frames of two stretches of video read one after the other are those of the first followed by those of the second, so video order is kept. |
| AihubLabel.QualifyingMembers | aihub_to_anncsv.py:123 | A frame is kept iff it is a frame of the video and lies in some window. |
| AihubLabel.SmokingAnnotationsCount | aihub_to_anncsv.py:50 | The filter keeps every smoking annotation as often as it occurs, and nothing else. |
| AihubLabel.SmokingAnnotationsAppend | aihub_to_anncsv.py:50 | Filtering two lists concatenated gives the concatenation of their filtered lists, so input order is kept. |
| AihubLabel.ParsedOrderProperties | aihub_to_yolo/aihub_to_yolov8txt.py:98-99 | The visited annotations are the smoking ones with multiplicity, in non-decreasing frame order, with equal frames in input order. |
| AihubLabel.CornersToCenter | aihub_to_anncsv.py:43-44 | Centre minus half the size gives the first corner, and centre plus half the size gives the second, exactly. |
| AihubToAnnCsv.AnnotationParser | aihub_to_anncsv.py:38-46 | The frame passes through, and the centre-form box recovers both corners exactly. |
| AihubToAnnCsv.AnnotationsParser | aihub_to_anncsv.py:48-55 | One box per smoking annotation, in the sorted order, each the parsed annotation, in non-decreasing frame order. |
| AihubToAnnCsv.ProcessAnnotation | aihub_to_anncsv.py:74-98 | One row per box, in order: label `smokingPerson`, top-left corner and size truncated toward zero, image name `<identifier>_<frame>.png`, frame size copied. |
| AihubToAnnCsv.RowOfAnnotation | aihub_to_anncsv.py:84-91 | End to end, a row holds the truncated first corner and the truncated corner-to-corner extent. |
| AihubToAnnCsv.ImageNameInjective | aihub_to_anncsv.py:82 | For one identifier, two frames get the same image name iff they are the same frame. |
| AihubToAnnCsv.SaveImages | aihub_to_anncsv.py:111-129 | A video that does not open stops the script; otherwise the names written are those of the in-window frames, in video order. |
| AihubToAnnCsv.SavedImageNamesOfQualifying | aihub_to_anncsv.py:118-126 | The k-th image saved is named after the k-th in-window frame of the video. |
| AihubToAnnCsv.SavedImageNamesMembers | aihub_to_anncsv.py:123-125 | A name is saved iff it is the image name of a frame of the video that lies in some window. |
| AihubToAnnCsv.NamesMatch | aihub_to_anncsv.py:138 | `set(a) == set(b)` holds iff every name of each list occurs in the other; order and repetition are ignored. |
| AihubToAnnCsv.Stems | aihub_to_anncsv.py:135 | Each entry is the file-name stem of the path at the same position. |
| AihubToAnnCsv.RawFilesMatch | aihub_to_anncsv.py:133-141 | The raw check succeeds iff every label stem is a video stem and every video stem is a label stem. |
| AihubToAnnCsv.RowImageNames | aihub_to_anncsv.py:149 | Each entry is the image name of the row at the same position. |
| AihubToAnnCsv.Basenames | aihub_to_anncsv.py:145 | Each entry is the base name of the path at the same position. |
| AihubToAnnCsv.SaveFilesMatch | aihub_to_anncsv.py:143-153 | The saved-files check succeeds iff every saved image is named by a row and every row names a saved image. |
| AihubToAnnCsv.SaveCheckIff | aihub_to_anncsv.py:150 | For one label file, the saved images and the rows match iff every in-window frame has a smoking box and every box is on an in-window frame of the video. |
| AihubToAnnCsv.MatchedWindowFramesBoxed | aihub_to_anncsv.py:150 | If the names match, every in-window frame carries a box. |
| AihubToAnnCsv.MatchedBoxesInWindows | aihub_to_anncsv.py:150 | If the names match, every box is on an in-window frame of the video. |
| AihubToAnnCsv.SavedNamesInRows | aihub_to_anncsv.py:150 | If every in-window frame carries a box, every saved image is named by a row. |
| AihubToAnnCsv.RowNamesSaved | aihub_to_anncsv.py:150 | If every box is on an in-window frame, every row names a saved image. |
| AihubToYolo.NormalisedBox | aihub_to_yolo/aihub_to_yolov8txt.py:84-94 | The frame passes through. Each of centre x/y and width/height, divided by the frame size, is rounded to two decimals, at most 0.005 from the exact value on either side, ties included. |
| AihubToYolo.AnnotationsParser | aihub_to_yolo/aihub_to_yolov8txt.py:96-103 | One normalised box per smoking annotation, in non-decreasing frame order. It fails with a division by zero iff there is a smoking annotation and a zero frame dimension. |
| AihubToYolo.ParseLabel | aihub_to_yolo/aihub_to_yolov8txt.py:20-34 | The error cases in order are: a missing video, then a name mismatch, then a division by zero. It succeeds iff the video exists, the stored file name matches it and no smoking annotation meets a zero frame dimension. On success the stored fields are the info, the sorted object-id-1 windows and the normalised boxes. |
| AihubToYolo.ExpectedVideoOfLabel | aihub_to_yolo/aihub_to_yolov8txt.py:63-68 | The label `<dir>/<stem>.json` is paired with the video `<stem>.mp4`. |
| AihubToYolo.SamplingOf | aihub_to_yolo/aihub_to_yolov8txt.py:119-120 | Size is `int(count * ratio)`, and a zero size is a division by zero. Otherwise step is the floor quotient: `step * size <= count < (step + 1) * size` for a positive size, and `(step + 1) * size < count <= step * size` for a negative one. |
| AihubToYolo.FullRatio | aihub_to_yolo/aihub_to_yolov8txt.py:107 | The default ratio 1.0 gives size = count and step 1. |
| AihubToYolo.FractionalRatio | aihub_to_yolo/aihub_to_yolov8txt.py:119-120 | A ratio in (0, 1] that succeeds gives `0 < size <= count` and `step >= 1`. |
| AihubToYolo.ScriptRatioExamples | aihub_to_yolo/aihub_to_yolov8txt.py:197 | With the script's ratio 0.01, 100 boxes give step 100 and 99 boxes divide by zero. |
| AihubToYolo.LargeRatioExample | aihub_to_yolo/aihub_to_yolov8txt.py:119-120 | A ratio above 1 can make the step 0. |
| AihubToYolo.NegativeRatioExample | aihub_to_yolo/aihub_to_yolov8txt.py:119-120 | A negative ratio is accepted: 10 boxes at -0.3 give size -3 and step `10 // -3 == -4`. |
| AihubToYolo.Visit | aihub_to_yolo/aihub_to_yolov8txt.py:137-151 | One frame only adds files: at most one image and one label, and the counter rises by at most one and at least by the labels written. A new exception is a division by zero or an index error, and only the index error leaves an image without its label. |
| AihubToYolo.Run | aihub_to_yolo/aihub_to_yolov8txt.py:130-151 | No more images, labels or count than frames, and no fewer count than labels. The only exceptions are ZeroDivisionError and IndexError. Images and labels are equal in number, except that an IndexError leaves one image more, because the image is written before the box is read. |
| AihubToYolo.FramePairStem | aihub_to_yolo/aihub_to_yolov8txt.py:141-144 | The image and the label of a frame have the same stem, `<namebase>_<frame>`, by which YOLO pairs them. |
| AihubToYolo.FrameFilesDistinct | aihub_to_yolo/aihub_to_yolov8txt.py:141-144 | Two frames get the same image file, or the same label file, iff they are the same frame, so nothing written is overwritten. |
| AihubToYolo.RunStopsAtError | aihub_to_yolo/aihub_to_yolov8txt.py:131-151 | Once an exception is raised, later frames change nothing. |
| AihubToYolo.NoFailureShorter | aihub_to_yolo/aihub_to_yolov8txt.py:138-147 | If the loop survives n in-window frames, it survives fewer. |
| AihubToYolo.RunMatchesReference | aihub_to_yolo/aihub_to_yolov8txt.py:137-151 | The counter ends at the in-window count. Position k is written iff `k % step == 0`, with the k-th box. The loop raises iff the step is 0 or a sampled position has no box. |
| AihubToYolo.ReferenceStep | aihub_to_yolo/aihub_to_yolov8txt.py:137-151 | One in-window frame takes the loop state at `k` to the state at `k + 1`. It fails exactly when the step is 0 or position `k` is sampled with no box left. |
| AihubToYolo.RunFailure | aihub_to_yolo/aihub_to_yolov8txt.py:130-151 | ZeroDivisionError iff the step is 0 and some frame is in a window. IndexError iff the step is not 0 and some sampled in-window position has no box. On either, the counter stops at the failing position, images and labels are the reference's for the positions before it, and an IndexError adds the failing frame's image. |
| AihubToYolo.FailureKept | aihub_to_yolo/aihub_to_yolov8txt.py:130-151 | Once raised, an exception and the files before it stay as described, whatever frames follow. |
| AihubToYolo.FailureAtStep | aihub_to_yolo/aihub_to_yolov8txt.py:137-148 | The frame at which the loop first raises: the exception kind, the stopped counter and the files written match the reference before that position. |
| AihubToYolo.SampleCountStep | aihub_to_yolo/aihub_to_yolov8txt.py:138 | The number of multiples of the step below n grows by one exactly at multiples of the step. |
| AihubToYolo.SampledPositions | aihub_to_yolo/aihub_to_yolov8txt.py:138 | Every sampled position is below n and a multiple of the step. |
| AihubToYolo.ImagesByPosition | aihub_to_yolo/aihub_to_yolov8txt.py:141 | The j-th image written is that of the in-window frame at the j-th sampled position. |
| AihubToYolo.LabelsByPosition | aihub_to_yolo/aihub_to_yolov8txt.py:144-147 | The j-th label written pairs the in-window frame at the j-th sampled position with the box at that same position, which is in range. |
| AihubToYolo.PositionsClosedForm | aihub_to_yolo/aihub_to_yolov8txt.py:138 | With a positive step the sampled positions are `0, step, 2*step, ...`, `ceil(n / step)` of them. |
| AihubToYolo.StepOneKeepsAll | aihub_to_yolo/aihub_to_yolov8txt.py:137-151 | With step 1 every in-window frame is written, with the box at its own position. |
| AihubToYolo.EnoughBoxes | aihub_to_yolo/aihub_to_yolov8txt.py:147 | No more in-window frames than boxes keeps the positional pairing in range. |
| AihubToYolo.OneFrameTooMany | aihub_to_yolo/aihub_to_yolov8txt.py:147 | With 100 boxes and step 100, 100 in-window frames are fine, but a 101st is sampled and has no box. |
| AihubToYolo.DatasetMaker.constructor | aihub_to_yolo/aihub_to_yolov8txt.py:110-121 | The fields are copied from the label infos and the sampling, and the name base is the video name before its first dot. |
| AihubToYolo.DatasetMaker.Create | aihub_to_yolo/aihub_to_yolov8txt.py:107-121 | A missing video raises first. Otherwise it fails iff the sampling does, and then only with a division by zero; on success the fields are as `__init__` sets them. |
| AihubToYolo.DatasetMaker.GenerateDataset | aihub_to_yolo/aihub_to_yolov8txt.py:124-151 | A video that does not open raises before anything is written. Otherwise the images, labels and exception are those of the specification `Run` over the reported frames. |
| AihubToYolo.DatasetMaker.GenerateUniqueNamebase | aihub_to_yolo/aihub_to_yolov8txt.py:162-174 | It raises iff the name has no `dd-dd-dd_[a-z]` match. Otherwise it returns the identifier of the first match: six digits, `_`, a lower-case letter. |
| AihubToYolo.NamebaseOfVideo | aihub_to_yolo/aihub_to_yolov8txt.py:121 | The name base of `<stem>.mp4` is the stem when the stem has no dot. |
| VideoIdentifier.SearchFrom | aihub_to_anncsv.py:65 | Returns the leftmost match at or after the start position, or none when there is none. |
| VideoIdentifier.RemoveDashes | aihub_to_anncsv.py:67 | The result has no dash and is no longer than the input. |
| VideoIdentifier.NameBase | aihub_to_anncsv.py:59-72 | None iff there is no match. Otherwise the result is the eight-character identifier of the leftmost match. |
| VideoIdentifier.FirstMatch | aihub_to_anncsv.py:59-72 | The identifier comes from the leftmost match, with its dashes removed. |
| VideoIdentifier.RemoveDashesAppend | aihub_to_anncsv.py:67 | Dash removal distributes over concatenation. |
| VideoIdentifier.RemoveDashesFree | aihub_to_anncsv.py:67 | A string without dashes is unchanged. |
| VideoIdentifier.RemoveDashesOfMatch | aihub_to_anncsv.py:65-67 | Removing the dashes of a match leaves its six digits, the underscore and the letter. |
| VideoIdentifier.DatasetExample | aihub_to_anncsv.py:61-63 | The documented example name yields `171600_b`. |
| VideoIdentifier.NoStampExample | aihub_to_anncsv.py:70-72 | A name with no time stamp has no identifier. |
| YoloTxtToAnnCsv.BboxConvert | yolotxt_to_anncsv.py:16-23 | Each cell is truncated toward zero: x is `int(xc*W - w*W/2)`, y is `int(yc*H - h*H/2)`, w is `int(w*W)` and h is `int(h*H)`. |
| YoloTxtToAnnCsv.ConvertNormalised | yolotxt_to_anncsv.py:16-23 | Converting the exact YOLO form of a whole-pixel box gives that box back. |
| YoloTxtToAnnCsv.AxisNormalised | yolotxt_to_anncsv.py:19-22 | The same round trip, for one axis. |
| YoloTxtToAnnCsv.LabelOfFields | yolotxt_to_anncsv.py:30-43 | A line without five fields gives class 5 and a zero box. With five fields it succeeds iff the four box fields are floats and the class is an int, and the box is the converted one. Any failure is a `ValueError`. |
| YoloTxtToAnnCsv.LabelOfParsedFields | yolotxt_to_anncsv.py:30-43 | A five-field line whose class and box fields parse gives that class and the converted box of those values. |
| YoloTxtToAnnCsv.ReadLabelTxt | yolotxt_to_anncsv.py:25-45 | The label depends only on the whitespace-split fields of the first line; stripping changes nothing. |
| YoloTxtToAnnCsv.OnlyFirstLineRead | yolotxt_to_anncsv.py:27 | Whatever follows the first line break is never read. |
| YoloTxtToAnnCsv.ReadWrittenLine | yolotxt_to_anncsv.py:27-28 | A line written as space-joined fields reads back as those fields. |
| YoloTxtToAnnCsv.CentredBoxExample | yolotxt_to_anncsv.py:16-23 | `0 0.5 0.5 0.25 0.5` on a 640x480 image gives class 0 and the box `240, 120, 160, 240`. |
| YoloTxtToAnnCsv.CentredBoxConverted | yolotxt_to_anncsv.py:16-23 | The centred quarter-width, half-height box on 640x480 converts to `240, 120, 160, 240`. |
| YoloTxtToAnnCsv.WrongFieldCount | yolotxt_to_anncsv.py:30-35 | A first line of any other number of fields gives the placeholder instead of failing. |
| YoloTxtToAnnCsv.CheckMatchingImage | yolotxt_to_anncsv.py:47-54 | It succeeds iff `<stem>.jpg` exists, returning the name, a true flag and that image's size. A missing image is `FileNotFound`. |
| YoloTxtToAnnCsv.MatchingImageName | yolotxt_to_anncsv.py:48-49 | The label `<stem>.txt` is matched with `<stem>.jpg`. |
| YoloTxtToAnnCsv.LabelFileStem | yolotxt_to_anncsv.py:48 | The stem of `raw_data/labels/<stem>.txt` is `<stem>`. |
| YoloTxtToAnnCsv.ProcALabel | yolotxt_to_anncsv.py:56-76 | The image is looked up first. The row succeeds iff the label is read, is always labelled `knife`, and copies the box cells in order and the image width and height. |
| YoloTxtToAnnCsv.LabelIgnoresClass | yolotxt_to_anncsv.py:37-43 | The box does not depend on the class field. |
| YoloTxtToAnnCsv.ClassIdNotChecked | yolotxt_to_anncsv.py:62-63 | Label files whose first lines differ only in an integer class field give the same row. |
| YoloTxtToAnnCsv.NonTargetRow | yolotxt_to_anncsv.py:30-35 | A file whose first line is not five fields still gives a `knife` row with the zero box `0.0, 0.0, 0.0, 0.0`. |
| HandLabeling.ConvertBbox | handlabeling_to_anncsv.py:30-34 | Centre minus and plus half the size give the two clicks. The size is negative exactly when the second click lies left of or above the first. |
| HandLabeling.Step | handlabeling_to_anncsv.py:15-24 | Only a left click changes anything. From a state without both flags, a click sets exactly one flag, stores the point under it and keeps the other point; it completes a box only after a start click. |
| HandLabeling.LeftClicks | handlabeling_to_anncsv.py:16 | There are no more left clicks than events. |
| HandLabeling.LeftClicksAppend | handlabeling_to_anncsv.py:16 | The clicks of two event runs concatenated are those of the first followed by those of the second. |
| HandLabeling.LeftClicksMembers | handlabeling_to_anncsv.py:16 | A point is among the clicks iff some left-button-down event happened there. |
| HandLabeling.RunByClicks | handlabeling_to_anncsv.py:15-24 | Any sequence of callbacks reaches the state given by its left clicks alone; other events change nothing. |
| HandLabeling.NeverBothFlags | handlabeling_to_anncsv.py:44-47 | From the initial state both flags are never set at once. |
| HandLabeling.CompletedAfterPairs | handlabeling_to_anncsv.py:52 | A box is complete iff there was a non-zero, even number of left clicks; its points are the last two. |
| HandLabeling.ClickAfterCompletion | handlabeling_to_anncsv.py:19-21 | A left click on a completed box overwrites the start point, keeps the end point and starts a new box. |
| HandLabeling.CompletedHasPoints | handlabeling_to_anncsv.py:52-60 | A completed box always has both points. |
| HandLabeling.ClickState.constructor | handlabeling_to_anncsv.py:40-47 | No points, both flags false. |
| HandLabeling.ClickState.IsBboxCompleted | handlabeling_to_anncsv.py:52 | True iff the end flag is set and the start flag is not. |
| HandLabeling.ClickState.MouseClickEvent | handlabeling_to_anncsv.py:15-24 | The shared points and flags are updated in place by exactly one step of the state machine. |
| PyNum.Trunc | aihub_to_anncsv.py:88-91 | `int(x)` truncates toward zero: `r <= x < r + 1` for `x >= 0`, and `r - 1 < x <= r` below 0. |
| PyNum.FloorDiv | aihub_to_yolo/aihub_to_yolov8txt.py:120 | `a // b` is the floor quotient, for either sign of `b`. |
| PyNum.Mod | aihub_to_yolo/aihub_to_yolov8txt.py:138 | `a % b` has the sign of `b` and is smaller than it in magnitude. |
| PyNum.ModZeroIffDivides | aihub_to_yolo/aihub_to_yolov8txt.py:138 | `a % b == 0` iff `b` divides `a`, for either sign. |
| PyNum.DivUnique | aihub_to_yolo/aihub_to_yolov8txt.py:120 | Quotient and remainder are unique. |
| PyNum.Round2 | aihub_to_yolo/aihub_to_yolov8txt.py:93 | `round(x, 2)` has at most two decimals and is at most 0.005 from `x` on either side. The model breaks a tie upward, a separate clause. |
| PyStr.NatToString | aihub_to_anncsv.py:82 | `str(n)` is non-empty decimal digits without a leading zero. |
| PyStr.IntToString | aihub_to_anncsv.py:82 | `str(n)` is non-empty and starts with `-` iff `n` is negative. |
| PyStr.NatToStringRoundTrip | aihub_to_anncsv.py:82 | The digits of `str(n)` read back as `n`. |
| PyStr.IntToStringRoundTrip | aihub_to_anncsv.py:82 | `int(str(n)) == n`. |
| PyStr.IntToStringInjective | aihub_to_anncsv.py:82 | Different integers print differently. |
| PyStr.IntToStringChars | aihub_to_anncsv.py:82 | `str(n)` holds only digits and a minus sign. |
| PyStr.NumberedNameInjective | aihub_to_yolo/aihub_to_yolov8txt.py:141 | Names built from the same prefix and suffix around `str(n)` are equal iff the numbers are. |
| PyStr.ParseInt | yolotxt_to_anncsv.py:41 | `int()` accepts a token iff it is digits with an optional `+` or `-`; the value is the digits' value, negated after `-`. |
| PyStr.ParseIntDigit | yolotxt_to_anncsv.py:41 | `int()` of one digit is that digit's value. |
| PyStr.ParseFloat | yolotxt_to_anncsv.py:37 | A token `float()` accepts is non-empty. |
| PyStr.ParseFloatAccepts | yolotxt_to_anncsv.py:37 | `float()` accepts a token iff it is an optional sign, then digits with at most one point and at least one digit, then an optional `e`/`E` and integer exponent. |
| PyStr.ParseFloatShape | yolotxt_to_anncsv.py:37 | Every token `float()` accepts has that shape. |
| PyStr.ParseFloatDigits | yolotxt_to_anncsv.py:37 | A signed digit string reads as its value with the sign applied. |
| PyStr.ParseFloatPointed | yolotxt_to_anncsv.py:37 | A signed `<int>.<frac>` reads as the integer part plus the fraction over its power of ten, with the sign applied. |
| PyStr.PointedToken | yolotxt_to_anncsv.py:37 | An unsigned `<digits>.<digits>` token reads as its mantissa value. |
| PyStr.ParseFloatExponent | yolotxt_to_anncsv.py:37 | Appending `e<k>` to an accepted mantissa scales its value by ten to the power k. |
| PyStr.FractionToken | yolotxt_to_anncsv.py:37 | `float("0.<digits>")` is the digits' value over the matching power of ten. |
| PyStr.HalfToken | yolotxt_to_anncsv.py:37 | `float("0.5") == 0.5`. |
| PyStr.QuarterToken | yolotxt_to_anncsv.py:37 | `float("0.25") == 0.25`. |
| PyStr.ParseFloatOfInteger | yolotxt_to_anncsv.py:37 | `float(str(n)) == n`. |
| PyStr.TrimRight | yolotxt_to_anncsv.py:27 | The result is a prefix, the part removed is all whitespace, and the result does not end in whitespace. |
| PyStr.LeadingSpace | yolotxt_to_anncsv.py:27 | The count covers exactly the leading whitespace. |
| PyStr.Split | yolotxt_to_anncsv.py:28 | Every field is a non-empty run without whitespace. |
| PyStr.SplitJoinRoundTrip | yolotxt_to_anncsv.py:28 | Splitting fields joined by single spaces gives the fields back. |
| PyStr.SplitIgnoresTrailingSpace | yolotxt_to_anncsv.py:27-28 | Trailing whitespace does not change the fields. |
| PyStr.SplitIgnoresLeadingSpace | yolotxt_to_anncsv.py:27-28 | Leading whitespace does not change the fields. |
| PyStr.SplitAfterStrip | yolotxt_to_anncsv.py:27-28 | `s.strip().split() == s.split()`. |
| PyStr.FirstLine | yolotxt_to_anncsv.py:27 | `readline()` without its break is the longest break-free prefix. |
| PyStr.FirstLineOfLines | yolotxt_to_anncsv.py:27 | The first line of `line + break + rest` is `line`. |
| PyStr.JoinIsOneLine | yolotxt_to_anncsv.py:27 | Space-joined fields hold no line break. |
| PyStr.Basename | yolotxt_to_anncsv.py:48 | The base name is the slash-free suffix of the path. |
| PyStr.BasenameUnderDirectory | yolotxt_to_anncsv.py:48 | The base name of `dir/name` is `name`. |
| PyStr.Stem | yolotxt_to_anncsv.py:48 | `splitext(...)[0]` is a prefix of the name. |
| PyStr.StemOfExtension | yolotxt_to_anncsv.py:48 | The stem of `name + .ext` is `name`. |
| PyStr.PathStemOf | aihub_to_yolo/aihub_to_yolov8txt.py:64 | The stem of `dir/name.ext` is `name`. |
| PyStr.BeforeFirstDot | aihub_to_yolo/aihub_to_yolov8txt.py:121 | `split(".")[0]` is the dot-free prefix ending at the first dot, if any. |
| StableSort.SortBySorted | aihub_to_anncsv.py:51 | `sorted` by the key gives a non-decreasing sequence. |
| StableSort.SortByPermutes | aihub_to_anncsv.py:51 | `sorted` gives a permutation of its input. |
| StableSort.SortByStable | aihub_to_yolo/aihub_to_yolov8txt.py:33 | Elements with equal keys keep their relative order. |
| StableSort.InsertSorted | aihub_to_anncsv.py:51 | Inserting into a sorted sequence keeps it sorted. |
| StableSort.InsertPermutes | aihub_to_anncsv.py:51 | Inserting adds exactly the one element. |
| StableSort.InsertStable | aihub_to_anncsv.py:51 | Inserting after equal keys keeps the order of each key's elements. |

## Left out

- Video decoding, image writing and reading, JSON loading, CSV writing, `glob` and `os.path.exists` are not modelled. The model takes what they supply as parameters:
  - the frame numbers the video reports;
  - whether it opens;
  - the set of existing paths;
  - the image sizes;
  - the parsed JSON.
- `save_annotation` (every script), the `__main__` loops and all printing, including `print_label_infos`, are not modelled.
- `info_parser` is not modelled separately. It is a field access folded into `ParseLabel` and the `LabelInfos` datatype.
- The GUI of `select_bbox` and `draw_bbox` is left out (window, key loop, drawing). The callback and the completion test are modelled.
- `aihub_to_yolo/raw_data_files_copy.py` is not part of this model. It is file copying only.
- Floating point: coordinates are exact reals, so the ±1 effects of binary rounding before `int()` are not captured.
- PyNum.Round2: breaks an exact tie upward, where Python rounds to the even neighbour of the float's binary value (`round(0.125, 2) == 0.12`). The closed ±0.005 bound and the two-decimal shape hold for both; only the last ensures, which excludes a result exactly 0.005 below, is the model's own.
- AihubToYolo.NormalisedBox: the rounding is stated only up to the closed ±0.005 bound, which Python's half-even result also meets, so which neighbour a tie picks is left open.
- PyStr.ParseFloat covers plain decimal tokens with an optional sign, point and exponent. It does not cover `inf`, `nan`, `_` digit separators or non-ASCII digits, which `float()` also accepts.
- PyStr.ParseInt covers an optional sign and ASCII digits. It does not cover `_` separators or non-ASCII digits.
- VideoIdentifier.MatchesAt takes `\d` as an ASCII digit. Python's `re` also matches other Unicode decimal digits.
- PyStr.FirstLine breaks at `\n` and `\r` (text mode's universal newlines). The rarer Unicode line separators that `str.splitlines` knows are not breaks for `readline` either, so they are not treated as breaks.
- `DatasetMaker` writes each YOLO label as the values `class_id` and the box, not their `str()` text.
- YoloTxtToAnnCsv.CheckMatchingImage: the existence flag `os.path.exists` returns is always true on success, because `Image.open` has already raised otherwise. Any other `Image.open` failure is not modelled.
