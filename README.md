# MNIST-Evaluator: the dataset decoders and the training schedule

A Dafny model of `main.cpp` of MNIST-Evaluator, a program that reads the MNIST
training images and labels (IDX files) and trains a neural network on them.
It covers three parts:

- The IDX decoders `parseMNISTImages` and `parseMNISTLabel` (`images.dfy`, `labels.dfy`).
  - They are classes whose fields (`buffer`, `saves`, `numberOfItems`, `height`, `width`) the methods update as the C++ does.
  - Shared byte-level pieces live in `idx.dfy`: the magic tag check, big-endian header fields, and well-formed headers used to state round trips.
- The sample encoders (`encoders.dfy`).
  - `MNISTImage::getDataSet` thresholds each pixel at 180 into a bipolar value.
  - `getLabelAsVector` builds a bipolar one-hot target.
  - The vectors hold only -1.0 and +1.0, so the model writes them as the integers -1 and 1.
- The orchestration of `testNN` (`training.dfy`).
  - `getGuessOutput` is an argmax seeded at 0 with a strict comparison.
  - `trainNN` picks sample `i % 60000` on iteration `i` and resets the running error sum after every multiple of 100. After every multiple of 1000 it runs `testGuess`.
  - `testGuess(amount, startingPoint)` guesses on `amount` consecutive samples from `startingPoint` on. `trainNN` calls it with 10.
  - The network is an oracle. Its `train` results are a given sequence of reals, and its `guess` results are a given function from step number to output vector.
  - The model records what the orchestrator hands over: the vectors passed to `train` and to `guess`, the sums reported, and the predicted classes.

Each C++ `throw 1` becomes an `Err`/`Fail` value of a `Result`/`Outcome` datatype.
Reads that the C++ makes without a bounds check become `requires` clauses. So do
the shifts into a signed `int` that would overflow.

The model follows the code as written, including these behaviours:

- The image item count is fixed at 60000 (main.cpp:45). It is not read from bytes 4..7 of the header.
- Record `i` is cut from offset `12 + h*w*i` (main.cpp:55). The IDX layout puts the payload after a 16-byte header, so every record is shifted four bytes early (`ImageParsing.RecordsOfImageFile`). When an image has at least 4 pixels (MNIST has 784), record 0 begins with the four width bytes and each later record begins with the last four pixels of the image before it (`ImageParsing.RecordStraddles`). With fewer than 4 pixels a later record can hold width bytes again.
- A label of 10 or more is not an error. `getLabelAsVector` returns ten -1 entries for it.
- No decoder checks that the buffer is long enough, so there is no "truncated" error. Such reads are preconditions instead.
- The argmax is seeded at 0. A vector with no positive entry therefore always predicts class 0.

## Model

| member | source | states |
|---|---|---|
| `Idx.CheckMagic` | main.cpp:36-42 | the tag check fails, with BadMagic, exactly when byte 2 is not 8 or byte 3 is not the expected rank |
| `Idx.BigEndianFitsInt` | main.cpp:46-49 | a field assembled from four shifted bytes is below 2^32, and fits a non-negative `int` exactly when its top byte is below 128 |
| `Idx.DecodeEncode` | main.cpp:137-138 | reading back the four big-endian bytes of a 32-bit number gives that number |
| `Idx.EncodeDecode` | main.cpp:46-49 | re-encoding a field that was read reproduces its four header bytes |
| `Idx.ImageHeaderTags` | main.cpp:36-42 | a well-formed image header passes the image tag check and fails the label one |
| `Idx.LabelHeaderTags` | main.cpp:128-134 | a well-formed label header passes the label tag check and fails the image one |
| `Idx.ImageHeaderFields` | main.cpp:46-49 | the count, height and width written into an image header read back unchanged at offsets 4, 8 and 12 |
| `Idx.LabelHeaderFields` | main.cpp:137-138 | the count written into a label header reads back unchanged at offset 4 |
| `Encoders.FeatureVectorSpec` | main.cpp:19-24 | thresholding keeps the length; a pixel below 180 gives -1 and one of 180 or more gives +1 |
| `Encoders.OneHotSpec` | main.cpp:161-174 | the target has 10 entries, all -1 or +1; a label below 10 gives exactly one +1, at its index; a larger label gives no +1 |
| `Encoders.FeatureVectorExamples` | main.cpp:19-24 | worked cases: the record [10, 200, 50, 250] encodes as [-1, +1, -1, +1]; pixel 179 gives -1 and 180 gives +1 |
| `Encoders.OneHotExamples` | main.cpp:161-174 | worked cases: label 3 gives +1 at index 3 only; label 12 gives ten -1 entries |
| `Encoders.GetDataSet` | main.cpp:17-25 | the loop produces the feature vector: same length as the record, entry k is -1 exactly when pixel k is below 180, else +1 |
| `ImageParsing.OffsetIs` | main.cpp:55 | the start of record i, built one record length at a time, is 12 + h*w*i |
| `ImageParsing.OffsetMonotone` | main.cpp:55 | a later record never starts before an earlier one |
| `ImageParsing.RecordsSpec` | main.cpp:51-60 | slicing gives exactly n records of h*w bytes each; record i is the h*w bytes from offset 12 + h*w*i on |
| `ImageParsing.RecordsSnoc` | main.cpp:55-58 | cutting one more record appends the h*w bytes that follow the previous record |
| `ImageParsing.RecordsOfImageFile` | main.cpp:55 | on a well-formed IDX3 file record i is the window [h*w*i, h*w*i + h*w) of the width bytes followed by the payload, so when an image has at least 4 pixels only record 0 starts with the width bytes |
| `ImageParsing.RecordStraddles` | main.cpp:55 | on a well-formed IDX3 file whose images have at least 4 pixels (MNIST has 784), record j + 1 is the last four pixels of image j followed by the first h*w - 4 pixels of image j + 1 |
| `ImageParsing.ImageParser.constructor` | main.cpp:100-106 | the parser starts with the given buffer, no records and zero count, height and width |
| `ImageParsing.ImageParser.CheckMagicNumber` | main.cpp:36-42 | fails with BadMagic exactly when byte 2 is not 8 or byte 3 is not 3 |
| `ImageParsing.ImageParser.GetInfo` | main.cpp:43-50 | the count becomes 60000 whatever the header says; height and width are the big-endian fields at bytes 8..11 and 12..15, both non-negative `int`s |
| `ImageParsing.ImageParser.LoadImages` | main.cpp:51-60 | appends exactly numberOfItems records cut at offsets 12 + h*w*i |
| `ImageParsing.ImageParser.Parse` | main.cpp:61-71 | fails with BadMagic exactly on a wrong tag; otherwise holds 60000 records of h*w bytes, with height and width from the header |
| `ImageParsing.ImageParser.GetImage` | main.cpp:72-77 | fails with IndexOutOfRange exactly when the index is not below the count; otherwise returns that record |
| `ImageParsing.ImageParser.GetDataSetInputSize` | main.cpp:78 | the input size is height times width, the length of every parsed record |
| `LabelParsing.LabelFileRoundTrip` | main.cpp:135-140 | on a well-formed IDX1 file the parsed count is the header count and what remains after the header is the payload |
| `LabelParsing.LabelParser.constructor` | main.cpp:177-181 | the parser starts with the given buffer and a zero count |
| `LabelParsing.LabelParser.CheckMagicNumber` | main.cpp:128-134 | fails with BadMagic exactly when byte 2 is not 8 or byte 3 is not 1 |
| `LabelParsing.LabelParser.GetInfo` | main.cpp:135-139 | the count is b4*2^24 + b5*2^16 + b6*2^8 + b7, a non-negative `int` |
| `LabelParsing.LabelParser.LoadLabels` | main.cpp:140 | removes exactly the first 8 bytes and keeps the rest in order |
| `LabelParsing.LabelParser.Parse` | main.cpp:141-150 | fails with BadMagic exactly on a wrong tag; otherwise label j (below the count) is byte j + 8 of the original buffer |
| `LabelParsing.LabelParser.GetLabel` | main.cpp:151-156 | fails with IndexOutOfRange exactly when the index is not below the count; otherwise returns that byte |
| `LabelParsing.LabelParser.GetLabelAsVector` | main.cpp:157-175 | passes on the lookup failure; otherwise 10 entries, +1 where the index equals the label and -1 elsewhere |
| `Training.ArgmaxScanSpec` | main.cpp:232-245 | the running maximum is at least 0 and bounds every entry; when it moved, its index holds it and every earlier entry is strictly smaller |
| `Training.GuessIndexSpec` | main.cpp:232-245 | the guess is the lowest index of the largest entry when some entry is positive, else 0; it is a valid index of a non-empty vector |
| `Training.GetGuessOutput` | main.cpp:232-245 | the loop returns the lowest index of the strict maximum among entries above 0, or 0 when there is none |
| `Training.GuessOfOneHot` | main.cpp:232-245 | reading a class off a target vector recovers its label; a label of 10 or more reads back as 0 |
| `Training.SampleIndex` | main.cpp:219-221 | the sample of iteration i lies in [0, 60000) and differs from i by a multiple of 60000 |
| `Training.CyclingInjective` | main.cpp:219-221 | within 60000 consecutive iterations no sample is used twice |
| `Training.CyclingReaches` | main.cpp:219-221 | within 60000 consecutive iterations every sample is used |
| `Training.SumAfterStep` | main.cpp:220-226 | each iteration adds its error to the running sum, which returns to 0 after a multiple of 100 |
| `Training.ReportsAfterStep` | main.cpp:222-226 | a report is added exactly at a multiple of 100, carrying the sum including that iteration's error |
| `Training.TrainCallsStep` | main.cpp:217-221 | each iteration appends one train call on its own sample i % 60000 |
| `Training.GuessesAfterStep` | main.cpp:227-228 | an evaluation of ten steps starting at i is added exactly when i is a multiple of 1000 |
| `Training.LabelAvailable` | main.cpp:217-219 | every iteration up to the stopping point finds its label; the next one misses it exactly when training halts |
| `Training.LabelsReadExact` | main.cpp:217-219 | every completed iteration reads a label index below LabelsRead, and one of them reads index LabelsRead - 1, so a buffer of LabelsRead labels is exactly what a run needs |
| `Training.LabelsCover` | main.cpp:219 | when the buffer holds LabelsRead labels, a label the count admits at an iteration up to the stopping point lies inside the buffer |
| `Training.LoopExit` | main.cpp:217 | a loop that ran out of iterations did not halt and completed all of them |
| `Training.Advance` | main.cpp:217-229 | one iteration carries the traces of iterations 1..k to those of 1..k+1 |
| `Training.Trainer.constructor` | main.cpp:185-206 | the orchestrator starts with its two parsers, a zero sum and empty traces |
| `Training.Trainer.TestGuess` | main.cpp:247-263 | appends one guess step per index from startingPoint below startingPoint + amount, on sample i % 60000, with the class read off the answer |
| `Training.Trainer.Iteration` | main.cpp:219-228 | given only that its own label, when the count admits it, is inside the buffer: one iteration fails, changing nothing, exactly when its label is past the count; otherwise trains, updates and maybe reports and resets the sum, and evaluates at a multiple of 1000 |
| `Training.Trainer.TrainNN` | main.cpp:214-230 | given a label buffer that holds the labels this run reads: fails exactly when some iteration's label is missing; the traces and the sum are those of the iterations completed |

## Left out

- Reading the files (`moveToBuffer`, the `std::ifstream` members): the buffers are given byte sequences. The model does not capture the extra byte that the `stream.get()` loop appends at end of file.
- All console output: the progress messages, `evaluateProgress`, `printImage` and the ASCII drawing in `testGuess`. They are presentation only.
- The neural network `ZNN::NeuralNetwork` (`setupNN`, `nn.train`, `nn.guess`) is a foreign library. Its results are parameters of the model.
- `UTIL::tanh`, `UTIL::tanhderivative` and the division `sumOfErrors / 100`: floating-point numerics. The reports carry the undivided sum.
- Training.Trainer.TrainNN: the C++ `double`s are exact `real`s. The running sum `sumOfErrors += ...` rounds on every addition in the C++, while `Sum` and `SumAfter` add exactly, so the reported sums are the exact sums of the `train` results.
- Training.Trainer.Iteration: the same exact addition of the error into `sumOfErrors`, without the rounding of a `double`.
- Training.GetGuessOutput: the outputs are `real`s, which have no NaN or infinity. In the C++ `outputs[i] > max` is false for a NaN entry, so a NaN is never chosen; the model does not represent that case.
- The unused global random engine.
- `main`: the fixed driver call with 10 000 000 iterations.
- Training.Trainer.constructor: does not build the two parsers or configure the network itself. It takes already-parsed parsers as arguments.
- ImageParsing.ImageParser.Parse: requires the header reads and the 60000 record cuts to stay inside the buffer and within `int`. The C++ does not check these, and going past them is undefined behaviour, not a thrown error.
- LabelParsing.LabelParser.GetLabel: requires a label index that the count admits to lie inside the buffer. The C++ reads it unchecked.
