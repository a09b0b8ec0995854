# Verification of the IA SDK

The SDK receives a radar's azimuths over TCP and finds targets in them. This project models three parts
of it in Dafny and proves what they promise.

**Finding peaks.** `Peak_finder` buffers azimuths, scans each for peaks with a flag that is carried from
one search to the next, and places each peak between bins by fitting a parabola: sums over a window, a
hand-written elimination over three arrays, back substitution, vertex.
Over the reals `LeastSquares` defines what a least-squares parabola is, `Elimination` proves that the
elimination finds it, `FitWindows` that none of the numbers it divides by is zero, `VectorMaths` and
`PeakResolver` that the loops compute it, and that the Python script, which fits in absolute bin numbers,
gives the same bin where it gives one at all. `Curvature` tells from the samples whether a fit is curved. `PeakScan` says where peaks are without the flag; `PeakFinder` is the object.

**Colossus messages.** `ColossusMessage` builds a message in one growing vector and reads it back through
overlays; `StreamDecoder` says what a stream of bytes holds; `TcpSocket` and `TcpRadarClient` are the loops
that recover the messages from a socket that splits the stream as it likes. `NavigationData` and
`SectorBlanking` (with `Angle`) are two payload codecs. `Bytes`, `Sequences`, `Floats` and `Options` are what
the modules share.

**State machines.** `ThreadedQueue` is the bounded queue as interleaved steps of producers and a consumer;
`PointCloud` is the accumulator that publishes one cloud a rotation.

Objects that the source updates in place are classes, its loops are loops, and each method is tied to a
specification function or predicate about which the theorems are proved.

## Where the code does not do what it is for

Each of these is proved, with the exact condition.

- Max mode is meant to hold each bin's maximum, but its running maximum is not reset from bin to bin
  (cpp_17/navigation/peak_finder.cpp:39-46). The combined azimuth never falls, so max mode reports no target
  for any input (`HeldMaximumReportsNothing`). It gives the per-bin maxima exactly when no bin lies below an
  earlier one (`HeldMaximumIsPerBinIff`); `HeldMaximumIsNotPerBin` is a buffer where it does not, and
  `CombineMaxPerBin` the loop that resets.
- The range check rejects infinities, but lets not-a-number through (line 109). What an azimuth reports is
  within its bounds exactly when around each peak the search gets to a fixed combination of the samples is not
  zero, or another is not and neither gain nor resolution is zero (`ReportInBoundsIff`): the fit is curved, or
  slopes (`CurvedIff`, `SlopedIff`, `FiveBins`). `LevelFitIsReported` is an azimuth where that fails.
- The limit on peaks is checked after one has been added, so a limit of zero allows one (line 113).
- The Python resolver gives the C++ bin exactly when the fit is curved; otherwise it raises an error where C++
  goes on (`ResolversAgreeIff`). Its scan stops one bin earlier and loses a peak in that bin, if there is one,
  and nothing else (`ScanOneFurther`).
- A peek that the network splits starts again at the front of the stream (cpp_17/network/tcp_socket.cpp:158-166).
  It never shows a signature that is not there, and it finds one that is exactly when it did not come in pieces
  (`PeekFindsIff`, `SplitPeekCanMiss`). The stream is cut into the segments of the reference decoder exactly when
  no peek at a signature came in pieces (`ReadIsDecodeIff`, and in `ReadThreadHandler`).
- The queue's depth check is outside the lock. The queue exceeds its limit by as much as one item for each
  producer and no more (`EveryRunIsSafe`, `BoundIsReached`). Above the limit items are dropped without notice;
  a run that never exceeds it loses none (`NothingIsLostWithinTheLimit`).
- `from_vector` of the sector list checks the number of sectors where its message speaks of the length, so only
  multiples of four sectors can be read back, and of those only the ones whose angles normalising leaves as they
  are (`RoundTripIff`; `DeepAngle` is one it does not). It checks neither the maximum of eight nor trailing bytes
  (`AcceptedBuffers`). The copying `add` returns false when it has succeeded.
- `normalise` repeats downwards only: angles below two turns under zero stay negative (`NormalisedIsNormalIff`),
  and the laws of angles hold exactly where that does not happen (`NormalisedTwiceIff`, `SubtractUndoesAddIff`,
  `AddAssociatesIff`).
- The point cloud's azimuth index is off by one exactly when the angle was rounded down and the azimuth is the
  first of its sample (`RoundedIndexIff`, `RoundedDownToThePreviousSample`).
- The point cloud's azimuth offset has no lower limit; a parameter that is negative once cut to 32 bits wraps
  around in 16 bits (`OffsetUsableIff`, `OffsetsThatWrap`). A cloud ends with the first sweep of the next rotation (`CloudEndsWithTheWrap`).

## Model

| member | source | states |
|---|---|---|
| LeastSquares.NormalEquationsAreOrthogonality | cpp_17/navigation/peak_finder.cpp:159-181 | the three equations set up from the sums hold of a quadratic iff its residuals are orthogonal to 1, x and x*x |
| LeastSquares.SolutionMinimisesError | cpp_17/navigation/peak_finder.cpp:159-201 | a solution has the least squared error of all quadratics, and over three or more abscissae it alone |
| LeastSquares.VertexIsExtremum | cpp_17/navigation/peak_finder.cpp:201 | the returned quotient is where the parabola turns: elsewhere its value differs by the curvature times the squared distance |
| Elimination.EliminationSolves | cpp_17/navigation/peak_finder.cpp:183-199 | with nonzero pivots, a quadratic satisfies the normal equations iff it is the one computed |
| Elimination.LastPivotNonzero | cpp_17/navigation/peak_finder.cpp:198 | the last pivot is not zero, or a nonzero quadratic would vanish at three abscissae |
| FitWindows.OffsetPivots | cpp_17/navigation/peak_finder.cpp:145-199 | every pivot of the C++ fit is nonzero, for each window size from 5, odd or even |
| FitWindows.AbsolutePivots | pythonexamples/NavigationModePeakDetectionFromOneFFTofRawData.py:94-104 | every pivot of the Python fit is nonzero |
| VectorMaths.ScalarSum | cpp_17/navigation/vector_maths.h:19-23 | adds the sum of the elements to the result |
| VectorMaths.ScalarSquare | cpp_17/navigation/vector_maths.h:33-37 | adds the dot product of the elements with themselves |
| VectorMaths.VectorSquare | cpp_17/navigation/vector_maths.h:47-51 | adds each square in place and leaves the rest of the result alone |
| VectorMaths.VectorCube | cpp_17/navigation/vector_maths.h:54-58 | adds each cube in place and leaves the rest alone |
| VectorMaths.VectorMultiply | cpp_17/navigation/vector_maths.h:68-72 | adds each product in place and leaves the rest alone, also when both factors are one array |
| PeakResolver.GatherMoments | cpp_17/navigation/peak_finder.cpp:159-181 | all the sums are those of the recursive definition |
| PeakResolver.Eliminate | cpp_17/navigation/peak_finder.cpp:179-199 | the elimination over three arrays computes the solution, in both languages' loop bounds |
| PeakResolver.PeakResolve | cpp_17/navigation/peak_finder.cpp:141-202 | returns the peak bin plus the turning point of the least-squares parabola, infinite for a sloping line and not a number for a level one |
| PeakResolver.PythonPeakResolve | pythonexamples/NavigationModePeakDetectionFromOneFFTofRawData.py:56-105 | returns the turning point of the parabola fitted in absolute bins, or none, standing for the division error, iff the fit is not curved |
| PeakResolver.ResolvedFitIsBest | cpp_17/navigation/peak_finder.cpp:141-202 | no other quadratic has as small a squared error over the window |
| PeakResolver.ResolversAgreeIff | pythonexamples/NavigationModePeakDetectionFromOneFFTofRawData.py:56-105 | for all data, peaks and window sizes, Python returns the C++ bin iff the fitted parabola is curved, and otherwise raises where C++ returns no finite bin |
| PeakResolver.ParabolaResolvesExactly | cpp_17/navigation/peak_finder.cpp:141-202 | if the bins around a peak hold the values of a curved parabola in the distance from it, they resolve to the peak bin minus b1 / (2 b2) |
| PeakResolver.ResolvedBinIgnoresGainAndOffset | cpp_17/navigation/peak_finder.cpp:141-202 | data of which each value is c times another plus d, c not zero, resolve to the same bin |
| PeakResolver.SymmetricPeakResolvesToItself | cpp_17/navigation/peak_finder.cpp:141-202 | over an odd window, if each bin before the peak equals the bin as far after it, the peak resolves to itself, or to no number if the fit is not curved |
| PeakScan.ScanIsSound | cpp_17/navigation/peak_finder.cpp:126-135 | every peak is above the threshold and above its right neighbour, and no lower than its left one unless it is the first bin searched |
| PeakScan.PeaksAreSeparated | cpp_17/navigation/peak_finder.cpp:99-101 | between consecutive peaks the signal stops falling, a window or more after the first |
| PeakScan.FitWindowsDisjoint | cpp_17/navigation/peak_finder.cpp:154-157 | the fit windows of different peaks share no bin |
| PeakScan.ScanIsComplete | cpp_17/navigation/peak_finder.cpp:99-138 | every bin above the threshold and its right neighbour and no lower than its left one is a peak or lies within a window after one |
| PeakScan.FirstPeakIsFirst | cpp_17/navigation/peak_finder.cpp:119-138 | no bin above the threshold and its right neighbour comes before the first peak |
| PeakScan.NextPeakIsFirst | cpp_17/navigation/peak_finder.cpp:119-138 | further peaks are each the first such bin, no lower than its left neighbour, more than a window after the one before, and after the last there is none |
| PeakScan.PythonFindPeakBin | pythonexamples/NavigationModePeakDetectionFromOneFFTofRawData.py:41-53 | finds the first candidate of the flag-free definition, above the threshold and its right neighbour, looking one bin less far |
| PeakScan.ScanOneFurther | pythonexamples/NavigationModePeakDetectionFromOneFFTofRawData.py:45 | the Python scan finds the peaks of the C++ one without that in the very last bin, if there is one |
| PeakFinder.SafeScanFits | cpp_17/navigation/peak_finder.cpp:154-157 | every window of a scan lies within the data iff that of its first peak does not reach below bin 0 |
| PeakFinder.FarEnoughIsSafe | cpp_17/navigation/peak_finder.cpp:94 | a first bin of at least half a window is enough for that, whatever the data |
| PeakFinder.Finder.Configure | cpp_17/navigation/peak_finder.cpp:59-76 | takes over the settings with the window brought between 5 and 15, and keeps held frames, which must have the bins that will be combined |
| PeakFinder.Finder.FindPeakBin | cpp_17/navigation/peak_finder.cpp:119-138 | finds the first candidate of the flag-free definition, or none; it is above the threshold and its right neighbour and, if a rise is awaited, past the start and no lower than its left one |
| PeakFinder.Finder.FindPeaks | cpp_17/navigation/peak_finder.cpp:85-116 | terminates, stays within the data, its 16-bit start never wraps while used, and reports the plausible targets of the scan in order up to the limit, once, iff there is one |
| PeakFinder.TargetOfMeans | cpp_17/navigation/peak_finder.cpp:103-112 | with the least-squares parabola of the window: a curved one gives a target iff (p - b1 / (2 b2)) * gain * resolution + offset is from n * resolution to bins * resolution, and that is its range; a sloping one gives none, a level one a range that is not a number |
| PeakFinder.ParabolaIsReportedAtItsVertex | cpp_17/navigation/peak_finder.cpp:103-112 | the same for bins that hold the values of a curved parabola |
| PeakFinder.PeaksOfMissNone | cpp_17/navigation/peak_finder.cpp:94-101 | over a whole azimuth, from the first bin to scan to the last whole window, no such bin is passed over but those within a window after a peak |
| PeakFinder.ReportedPeaks | cpp_17/navigation/peak_finder.cpp:99-114 | the reported targets are those of an ascending list of peaks, at most max(1, limit); a peak that is not on it has no target or comes after the limit was reached |
| PeakFinder.ReportedTargetMeans | cpp_17/navigation/peak_finder.cpp:99-112 | every reported target shows the power of a peak bin, which is above the threshold, and the range of the vertex there, within bounds if the fit is curved |
| PeakFinder.ReportMeans | cpp_17/navigation/peak_finder.cpp:97-115 | there is a report iff there are targets and a callback, with the azimuth, angle and time of the frame |
| PeakFinder.ReportInBoundsIff | cpp_17/navigation/peak_finder.cpp:95-113 | the targets of an azimuth are no more than the limit, and all within bounds iff every peak the search gets to is harmless: its samples bend, or slope with nonzero gain and resolution |
| PeakFinder.TargetsInBoundsIff | cpp_17/navigation/peak_finder.cpp:103-112 | without a limit, all targets are within bounds iff every peak is harmless |
| PeakFinder.HarmlessMeans | cpp_17/navigation/peak_finder.cpp:105-109 | a peak is harmless iff its fit is curved, or slopes with nonzero gain and resolution |
| Curvature.CurvedIff | cpp_17/navigation/peak_finder.cpp:159-201 | the fitted parabola is curved iff a fixed linear combination of the samples is not zero |
| Curvature.SlopedIff | cpp_17/navigation/peak_finder.cpp:159-201 | a fit that is not curved slopes iff another such combination is not zero |
| Curvature.FiveBins | cpp_17/navigation/peak_finder.cpp:159-201 | for five bins the combinations are 2, -1, -2, -1, 2 and -2, -1, 0, 1, 2, up to a factor |
| PeakFinder.LevelFitIsReported | cpp_17/navigation/peak_finder.cpp:109 | an azimuth whose only target has a range that is not a number |
| PeakFinder.Finder.CombineMax | cpp_17/navigation/peak_finder.cpp:39-46 | each combined bin is the maximum over all frames and all bins up to it |
| PeakFinder.Finder.CombineAverage | cpp_17/navigation/peak_finder.cpp:28-37 | the loops give each bin the level of its mean power, the conversions being parameters |
| PeakFinder.MeanAzimuthBetween | cpp_17/navigation/peak_finder.cpp:28-37 | for any increasing conversion to power and its inverse, the mean of a bin lies between its least and greatest value |
| PeakFinder.MeanOfOne | cpp_17/navigation/peak_finder.cpp:28-37 | a single frame gives each bin the level of the power of half its value |
| PeakFinder.MeanGrows | cpp_17/navigation/peak_finder.cpp:28-37 | with one frame more, n + 1 times the mean power of a bin is n times the mean before plus the power of the new value, halved |
| PeakFinder.HeldMaximumIsPerBinIff | cpp_17/navigation/peak_finder.cpp:39-46 | max mode gives the per-bin maxima iff every value is matched in every later bin |
| PeakFinder.HeldMaximumIsNotPerBin | cpp_17/navigation/peak_finder.cpp:39-46 | a buffer of one frame on which max mode does not give the per-bin maxima |
| PeakFinder.CombineMaxPerBin | cpp_17/navigation/peak_finder.cpp:39-46 | with the maximum reset for each bin, the same loops give the per-bin maxima |
| PeakFinder.HeldMaximumReportsNothing | cpp_17/navigation/peak_finder.cpp:39-54 | max mode reports no target for any input and settings |
| PeakFinder.Finder.FftDataHandler | cpp_17/navigation/peak_finder.cpp:18-56 | wrong-size frames change nothing; otherwise the frame is buffered, or a full batch is combined, cleared and reported; in max mode nothing is reported |
| PeakFinder.FrameMeans | cpp_17/navigation/peak_finder.cpp:18-51 | which frames are held and what is scanned: nothing for a wrong size, each frame without buffering, otherwise a batch when the buffer has reached its length, which empties it |
| PeakFinder.BatchesPartitionTheRun | cpp_17/navigation/peak_finder.cpp:24-48 | over a run of frames of any size the k-th batch is exactly the k-th L of the right size, and the rest of them is held |
| PeakFinder.BatchCount | cpp_17/navigation/peak_finder.cpp:24-48 | batches and held frames are quotient and remainder of the accepted count by max(1, length) |
| PeakFinder.Replay | cpp_17/navigation/peak_finder.cpp:18-56 | over any list of frames the reports are those of the batches, in order, with the time and angle of the last frame of each |
| PeakFinder.ReportsSplit | cpp_17/navigation/peak_finder.cpp:18-56 | the reports of a run are those of its first batches followed by those of the others |
| PeakFinder.OneBatchReports | cpp_17/navigation/peak_finder.cpp:18-56 | a batch is reported with the number, angle and time of its last frame, from its values or, in average mode, their means |
| Bytes.U16Order | cpp_17/utility/net_conversion.cpp:28-37 | of two pairs of bytes the one whose first differing byte is less is the lesser number |
| Bytes.U32Order | cpp_17/network/colossus_network_message.cpp:229-242 | of four bytes likewise: the first byte that differs decides, so the order is the network's |
| ColossusMessage.FrameBytes | cpp_17/network/colossus_network_message.cpp:237-242 | a message is the 16 signature bytes, 1, the type, the payload size as four bytes with the greatest first, and the payload |
| ColossusMessage.ValidHeaderIff | cpp_17/network/colossus_network_message.cpp:203-213 | a header is valid iff it has those bytes, version 1, and bytes 18 to 21, the first weighing most, make less than 1000000 |
| ColossusMessage.WellFormedIsFrame | cpp_17/network/colossus_network_message.cpp:203-213 | the valid messages of the right length are exactly the frames with a payload below the limit |
| ColossusMessage.OrderDoesNotMatter | cpp_17/network/colossus_network_message.h:224-244 | one header and any payloads, added in any order, give network header, message header, payloads |
| ColossusMessage.ViewsRecoverParts | cpp_17/network/colossus_message_base.h:43-143 | the overlay's header bytes and `to_vector` are what was put in |
| ColossusMessage.Message.IsValid | cpp_17/network/colossus_network_message.cpp:203-213 | accepts exactly the nonempty messages whose header is valid |
| ColossusMessage.Message.CopyBackward | cpp_17/network/colossus_network_message.h:233-237 | the overlapping move keeps the moved bytes intact |
| ColossusMessage.Message.AppendHeader | cpp_17/network/colossus_network_message.h:224-244 | inserts the header before the payload in place and keeps the size field right |
| ColossusMessage.Message.AppendPayload | cpp_17/network/colossus_network_message.cpp:305-318 | adds the payload at the end and keeps the size field right |
| ColossusMessage.HeaderAdded | cpp_17/network/colossus_network_message.h:224-244 | an added header is bytes 22 on, before the payload, or without one over what was there; the size bytes count everything after byte 22, the greatest first |
| ColossusMessage.PayloadAdded | cpp_17/network/colossus_network_message.cpp:305-318 | an added payload comes last, and the size bytes count it |
| StreamDecoder.FirstMeans | cpp_17/network/tcp_radar_client.cpp:168-259 | byte by byte what is cut off a stream: one byte if there is no signature, a header of 22 if version or size are wrong, the message of 22 and n bytes if its size bytes make n, or an end that is too short |
| StreamDecoder.WireMessageIsFirst | cpp_17/network/tcp_radar_client.cpp:228-259 | a message on the wire, byte by byte, with any payload below the limit, is cut off whole whatever follows |
| StreamDecoder.SmallMessageIsFirst | cpp_17/network/tcp_radar_client.cpp:228-259 | size bytes 0, 0, 0, k announce exactly k bytes of payload |
| StreamDecoder.DecodePartitions | cpp_17/network/tcp_radar_client.cpp:168-259 | every byte belongs to exactly one delivered message, dropped header, skipped byte or truncated end |
| StreamDecoder.NoiseIsSkipped | cpp_17/network/tcp_radar_client.cpp:196-204 | noise without a signature is skipped byte by byte, whatever follows it |
| StreamDecoder.DecodesExactly | cpp_17/network/tcp_radar_client.cpp:168-259 | from noise, messages with any payload and invalid headers precisely the messages are recovered, in order, also when the stream ends inside one |
| StreamDecoder.LaterBytesTakeNothingBack | cpp_17/network/tcp_radar_client.cpp:168-259 | messages delivered from a prefix of the stream are delivered from the stream |
| TcpSocket.Socket.Receive | cpp_17/network/tcp_socket.cpp:150-178 | a consuming call returns exactly the next bytes for every split of the stream, or fails at its end; a peeking one takes nothing and returns pieces that each start at the front |
| TcpSocket.PeekFindsIff | cpp_17/network/tcp_socket.cpp:155-166 | a peek made at a signature returns it iff its first piece was all sixteen bytes |
| TcpSocket.SplitPeekCanMiss | cpp_17/network/tcp_socket.cpp:155-166 | any stream that starts with a signature can be peeked so that it is missed |
| TcpRadarClient.Client.HandleData | cpp_17/network/tcp_radar_client.cpp:228-259 | takes exactly the first segment off the stream and delivers it byte for byte if it is a message |
| StreamDecoder.ReadIsDecodeIff | cpp_17/network/tcp_radar_client.cpp:171-204 | whatever the pieces of the peeks, a stream read to its end is cut as the reference decoder cuts it iff no peek at a signature came in pieces |
| TcpRadarClient.Client.ReadThreadHandler | cpp_17/network/tcp_radar_client.cpp:160-214 | terminates on any finite stream, accounts for every byte and enqueues only whole valid messages; cuts what the first pieces of the peeks lead to, which is what the reference decoder cuts iff none made at a signature was less than the whole |
| ThreadedQueue.EveryRunIsSafe | cpp_17/utility/threaded_queue.h:26-62 | in every interleaving delivered, in-flight and queued items are the accepted ones in order, and the queue holds at most the limit plus one item for each producer |
| ThreadedQueue.BoundIsReached | cpp_17/utility/threaded_queue.h:28-30 | some interleaving reaches that bound |
| ThreadedQueue.EveryItemIsAccountedFor | cpp_17/utility/threaded_queue.h:26-32 | in every run the items offered are those accepted, those admitted producers hold and those refused, none twice |
| ThreadedQueue.RefusedOnlyWhenOverLimit | cpp_17/utility/threaded_queue.h:28 | an item is refused only in a state whose queue is longer than the limit, and admitted only in one whose queue is not |
| ThreadedQueue.EnqueueIsDecided | cpp_17/utility/threaded_queue.h:28 | a producer outside `enqueue` can be admitted iff the queue is within the limit, and refused iff it is not |
| ThreadedQueue.NothingIsLostWithinTheLimit | cpp_17/utility/threaded_queue.h:26-32 | a run whose queue never exceeds the limit loses no item that is offered |
| ThreadedQueue.ConsumerDrains | cpp_17/utility/threaded_queue.h:44-62 | a consumer that has missed nothing delivers every accepted item by its own steps |
| ThreadedQueue.NoWakeupIsLost | cpp_17/utility/threaded_queue.h:26-62 | if every item is enqueued with notification, a consumer waiting unnotified means an empty queue, and from any point of any run the consumer gets through |
| ThreadedQueue.DeliveredWithin | cpp_17/utility/threaded_queue.h:26-62 | in any run with notification, so many accepted items are delivered iff the consumer has taken as many steps as it was away from that; until then it has a step to take |
| ThreadedQueue.QueuedItemIsDeliveredWithin | cpp_17/utility/threaded_queue.h:26-62 | the item at position i is delivered, in its turn, within 3i + 4 steps of the consumer, whatever the producers do in between |
| ThreadedQueue.QuietItemCanWait | cpp_17/utility/threaded_queue.h:31 | an item enqueued without notification can stay while the consumer waits |
| PointCloud.IndexInRange | ros2/src/nav_ros/src/point_cloud_publisher.cpp:127 | any angle from 0 up to 360 has an index among the samples |
| PointCloud.RoundedIndexIff | ros2/src/nav_ros/src/point_cloud_publisher.cpp:127 | an angle within rounding of an encoder azimuth has the index of the azimuth scaled to the samples, or the one before; the former iff it was not rounded down or the azimuth is not the first of its sample |
| PointCloud.RoundedDownToThePreviousSample | cpp_17/network/radar_client.cpp:335 | an azimuth whose nearest float gives the sample before |
| PointCloud.ShiftRotates | ros2/src/nav_ros/src/point_cloud_publisher.cpp:132-135 | the shift is addition modulo the samples and injective |
| PointCloud.ShiftStaysInRangeIff | ros2/src/nav_ros/src/point_cloud_publisher.cpp:132-135 | it keeps every sample in range iff the offset does not exceed the samples |
| PointCloud.DetectionsAreExactly | ros2/src/nav_ros/src/point_cloud_publisher.cpp:137-147 | a sweep adds exactly its bins above threshold inside both windows, in ascending order |
| PointCloud.DetectionMeans | ros2/src/nav_ros/src/point_cloud_publisher.cpp:127-147 | with k such that 360 k <= angle * samples < 360 (k + 1), a point is detected iff k is in the azimuth window, its bin is in the bin window and the data with more than the threshold, and its azimuth is k plus the offset, less the samples if not below them: modulo the samples for a usable offset |
| PointCloud.SweepAdds | ros2/src/nav_ros/src/point_cloud_publisher.cpp:127-157 | after a sweep a point is published or buffered iff it was buffered before or is such a point, with azimuth (k + offset) modulo the samples |
| PointCloud.AfterSweepMeans | ros2/src/nav_ros/src/point_cloud_publisher.cpp:137-226 | everything collected is published iff the azimuth went back, and the fourth time the settings are refreshed |
| PointCloud.DetectionsAreConserved | ros2/src/nav_ros/src/point_cloud_publisher.cpp:124-157 | in any run, with any changes of configuration and parameters, clouds then buffer are all detections in order |
| PointCloud.SettledRunsConserve | ros2/src/nav_ros/src/point_cloud_publisher.cpp:124-157 | with settled settings they are the filtered detections of the sweeps alone |
| PointCloud.CloudsCountWraps | ros2/src/nav_ros/src/point_cloud_publisher.cpp:149-159 | as many clouds as wraps, as many refreshes as groups of four |
| PointCloud.CloudEndsWithTheWrap | ros2/src/nav_ros/src/point_cloud_publisher.cpp:137-157 | a cloud holds what was buffered and all sweeps up to and including the one that wraps |
| PointCloud.EightRotationsSettle | ros2/src/nav_ros/src/point_cloud_publisher.cpp:149-223 | eight wraps after the last change from outside the settings are final |
| PointCloud.RefreshMeans | ros2/src/nav_ros/src/point_cloud_publisher.cpp:161-222 | for each parameter, by its value in 32 bits: in range it takes effect, out of range it is put back and the setting stays; the offset is only limited from above and kept in 16 bits |
| PointCloud.Publisher.ConfigurationDataHandler | ros2/src/nav_ros/src/point_cloud_publisher.cpp:232-246 | takes over the radar and, of the settings, the end bin alone |
| PointCloud.OffsetUsableIff | ros2/src/nav_ros/src/point_cloud_publisher.cpp:161-169 | the final offset is at most the samples iff the parameter, cut to 32 bits, is not negative or wraps around to at most them |
| PointCloud.OffsetsThatWrap | ros2/src/nav_ros/src/point_cloud_publisher.cpp:161-169 | parameters that become 65535, or another number, on the way to the offset |
| PointCloud.Publisher.FftDataHandler | ros2/src/nav_ros/src/point_cloud_publisher.cpp:124-228 | one sweep is one step of the run |
| NavigationData.DecodeCopied | cpp_17/network/radar_client.cpp:355-372 | returns the header fields, the angle and floor((length - 10) / 6) peaks of any payload of 10 bytes or more |
| NavigationData.DecodeInPlace | cpp/radarclient.cpp:260-282 | returns the same contents for every such payload |
| NavigationData.DecodeInvertsEncode | cpp_17/network/radar_client.cpp:364-372 | decoding inverts encoding, and a partial record at the end is ignored |
| NavigationData.EncodeInvertsDecode | cpp_17/network/radar_client.cpp:364-372 | encoding what was decoded gives back all the bytes but the partial record |
| NavigationData.PayloadRoundTrip | cpp_17/network/colossus_messages.h:123-148 | a payload made of fields and records decodes into exactly those |
| NavigationData.HeaderMeans | cpp_17/network/radar_client.cpp:355-361 | azimuth, seconds and split seconds are bytes 0-1, 2-5 and 6-9, the first weighing most; the angle is azimuth * 360 / encoder size, infinite or no number if that is zero; there are floor((length - 10) / 6) peaks |
| NavigationData.PeakMeans | cpp_17/network/radar_client.cpp:363-372 | peak i has as range the four bytes from 10 + 6i in millionths and as power the next two |
| Angle.Normalise | cpp_17/utility/angle.h:58-66 | the loop and the two corrections terminate with the specified value |
| Angle.NormalisedIsNormalIff | cpp_17/utility/angle.h:58-66 | the direction is kept, and the result lies in [0, 360) iff the value is at least -720 |
| Angle.DeepAngle | cpp_17/utility/angle.h:58-66 | an angle built from -1000 is not normal |
| Angle.NormalisedTwiceIff | cpp_17/utility/angle.h:58-66 | normalising again changes nothing iff the value is at least -720 |
| Angle.SubtractUndoesAddIff | cpp_17/utility/angle.h:27-35 | of angles, which are less than 360, (a + b) - b is a iff a lies in [0, 360) |
| Angle.AddAssociatesIff | cpp_17/utility/angle.h:27-30 | both sums have the same direction for all values, and are the same angle iff both outer sums are at least -720 or equal |
| SectorBlanking.RoundTripIff | cpp_17/navigation/sector_blanking.cpp:42-96 | a list survives the round trip iff it has a multiple of four sectors, fewer than 256, and every angle is one that normalising keeps |
| SectorBlanking.BuiltListsRoundTripIff | cpp_17/navigation/sector_blanking.cpp:42-96 | of the lists that can be built, those of 0, 4 and 8 sectors whose angles normalising keeps |
| SectorBlanking.AcceptedBuffers | cpp_17/navigation/sector_blanking.cpp:78-80 | exactly which buffers are accepted |
| SectorBlanking.VectorBytes | cpp_17/navigation/sector_blanking.cpp:42-64 | sector i is written to the eight bytes from 1 + 8i, start before finish, the greatest byte first, after the number of sectors |
| SectorBlanking.AcceptedSectors | cpp_17/navigation/sector_blanking.cpp:78-95 | an accepted list has as many sectors as byte 0 says, each normalised from those eight bytes |
| SectorBlanking.BlankingSectorList.AddCopy | cpp_17/navigation/sector_blanking.cpp:24-30 | adds while there is room and reports failure always |
| SectorBlanking.BlankingSectorList.AsVector | cpp_17/navigation/sector_blanking.cpp:42-64 | the loop produces the count byte and the encoded sectors |
| SectorBlanking.BlankingSectorList.TakeVector | cpp_17/navigation/sector_blanking.cpp:67-96 | appends the decoded sectors, or rejects the buffer and leaves the list alone |

## Left out

- Rounding: the fit, the ranges of peaks, the laws of `Angle` and the quotient of an angle by a sample's share are over the reals; only the angle itself is taken as rounded. In floats (a + b) - b can differ from a by rounding alone. Different 32-bit resolved bins can be one range as a float. What a division by zero gives is modelled (infinite, not a number), signs of infinities are not.
- PeakFinder.Finder.CombineAverage: the power of ten and the logarithm are parameters, any increasing function and its inverse, because they are transcendental.
- PeakFinder.Finder.FindPeaks: requires that the first peak's window does not reach below bin 0, where the source would read outside the vector. `FftDataHandler` requires that of the azimuth it is about to scan; a first bin of half a window is enough.
- PeakFinder.Finder.Configure: requires held frames to have the bins of the new configuration; the source would read outside shorter ones.
- PeakFinder.Finder.SetTargetCallback: the callback is a flag; calling it is returning a report.
- The main program of the Python script and its plotting; its global flag is passed in and out.
- ColossusMessage.Message.AppendHeader: the vector is a fresh block after each resize, whether or not the source would have reallocated. Lengths stay below 2 to the 32.
- Message ids, addresses, reading and writing the type byte, and the moving overloads, which do the same with the same bytes.
- TcpSocket.Socket.Receive: errors and timeouts other than the end of the stream, and the socket becoming invalid in the middle of a call.
- TcpRadarClient.Client.ReadThreadHandler: ends when nothing is left to read, where the source spins; `reading` and `running` are not changed by other threads. Connecting, reconnecting and sending are left out.
- The queue's stop, its callback being replaced, and joining threads; steps are taken while the queue runs.
- PointCloud.Publisher.FftDataHandler: a published cloud is its points; their coordinates are sines and cosines, and the fields of the ROS messages are left out.
- NavigationData.DecodeCopied: a payload shorter than its 10-byte header is undefined in both decoders.
- SectorBlanking.BlankingSectorList.TakeVector: a float is its 32-bit word, and normalising that word is a parameter; `Angle` is about normalising over the reals.
- The NTP fields of FFT data, the other overlaid headers, protobuf payloads, logging, the ROS 1, video, C# and file output programs.
