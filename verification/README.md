# DAAT-MCS: a verified model

DAAT-MCS measures how cache colouring and coherent DMA traffic disturb programs on a multi-core board, and picks
configurations from the measurements. This project models, in Dafny, the parts that decide something:

- **the tuner**: checkpoints become metrics, metrics become percentage deltas against the best configuration, deltas
  become classes 0, 1 and 2, and the classes feed a heatmap, a decision graph and a ranking
  (`Metrics`, `Matrices`, `Heatmap`, `DecisionTree`, `TreeLaws`, `Ranking`, `RankingLaws`,
  `RankingOrder`, `Agreement`, `ConfigOrder`, `Sorting`);
- **the trace reader**: each request in an AXI capture is matched with its response (`Latency`, `Lists`);
- **the experiment names**: a printer, two independent parsers, and the CPU masks emitted with the names
  (`CciNames`, `FolderNames`, `CciGuests`, `Bits`, `Strings`);
- **the campaign**: the configurations that generation lists, the image and port lists, and the bounded retry loop,
  driven by an arbitrary oracle (`Campaign`);
- **the log reader** and the merging of its times (`LogMachine`, `LogLines`, `Blend`, `Arithmetic`).

Loops, in-place matrices, the graph object, the guest set, the campaign and the merged data are imperative Dafny, each
method tied to a specification function; the laws are lemmas about those functions. Metrics, deltas, tolerances, rates
and times are exact reals. `None` stands for NaN in a matrix.

Six results are worth knowing before changing the code:

- The graph and the ranking agree for all tolerances. The heatmap and the ranking agree on every dataset exactly when
  the tolerances are `Agreement.Consistent`, a test on the tolerances alone; a factor of at least 1 passes it. With a
  factor below 1 they can differ, because the class ladder accepts a delta up to tau and the mask only up to
  factor * tau.
- A change of tolerances can cost an accepted cell exactly when it fails `RankingLaws.NeverStricter`; raising
  non-negative taus or the factor never does.
- The ranking key orders the rows exactly when every configuration without an accepted cell was timed on CPU0, or those
  that were timed all tie (`RankingOrder.KeyOrdersIff`, a condition on the dataset and the arguments). A NaN key
  otherwise makes the result an accident of the sorting algorithm (`RankingOrder.NanBreaksTheOrder`).
- In a log, a benchmark header directly after a result marker without a number is taken for the missing number line,
  and that benchmark's time is lost (`LogLines.HeaderCanBeLost`); `LogMachine.Lost` says for which headers, by looking
  at the log only. The comment of `parse_log` only announces a number on the line after the marker; the code also takes
  one on the marker's own line, and the model follows the code.
- Test generation starts its list of configurations afresh for every setup, yet the campaign lists what is left of it
  once per setup. With several setups every image was generated for the last one, possibly under a name an earlier
  setup left behind, and stands beside the ports of its own setup exactly when all setups have the last one's ports
  (`Campaign.OwnPortsIff`).
- Folding a series is the arithmetic mean of its times exactly when there are at most two of them.

## Model

| member | source | states |
|---|---|---|
| ConfigOrder.OrderCfgList | DAAT-MCS/DAAT-MCS_tuner.py:54-55 | whatever order the set yields its elements in, the result is the one strictly increasing list of that set under the sort key |
| ConfigOrder.BeforeTotal | DAAT-MCS/DAAT-MCS_tuner.py:44-51 | the sort key never ties two different configurations: it is a strict total order on any set of them |
| ConfigOrder.OrderedShape | DAAT-MCS/DAAT-MCS_tuner.py:44-55 | "interf" comes first, then labels cN by number, then the other names alphabetically; any strictly increasing list of the set is this one |
| ConfigOrder.KnownOrder | DAAT-MCS/DAAT-MCS_tuner.py:30-55 | the seven known configurations are ordered as interf, c1 to c6 |
| ConfigOrder.NumberedOrder | DAAT-MCS/DAAT-MCS_tuner.py:44-51 | names cN go by N, whatever its number of digits |
| Sorting.SortIsStable | DAAT-MCS/DAAT-MCS_tuner.py:907-910 | on elements the test orders, the sort is a sorted permutation that keeps tied elements in input order |
| Sorting.StableSortUnique | DAAT-MCS/DAAT-MCS_tuner.py:907-910 | every stable sort of the same list gives the same result, so the algorithm behind `sorted` does not matter |
| Metrics.MetricPositive | DAAT-MCS/DAAT-MCS_tuner.py:157-163 | a metric is absent exactly when no checkpoint is positive, and strictly positive otherwise |
| Metrics.OneMoreCheckpoint | DAAT-MCS/DAAT-MCS_tuner.py:157-163 | one more checkpoint anywhere in the list adds x / 1000 on CPU0 and 1 on the other CPUs when it is positive, and changes nothing otherwise |
| Metrics.MetricOrder | DAAT-MCS/DAAT-MCS_tuner.py:157-163 | the metric does not depend on the order of the checkpoints |
| Metrics.ArgBest | DAAT-MCS/DAAT-MCS_tuner.py:170-173 | the index found is the first of the best values in the CPU's direction |
| Metrics.ComputeBaselineDeltaClass | DAAT-MCS/DAAT-MCS_tuner.py:166-196 | baseline, deltas and classes are functions of the value dictionary alone, insertion order only deciding which of several best configurations is named; the baseline is the least or largest value, each delta the percentage by which its value is worse, and each class 0 exactly up to tau, 1 exactly between tau and factor * tau, 2 otherwise |
| Metrics.ComputeClass | DAAT-MCS/DAAT-MCS_tuner.py:199-226 | the second copy of the computation returns the same class dictionary, with the same meaning of 0, 1 and 2 |
| Metrics.DeltaRange | DAAT-MCS/DAAT-MCS_tuner.py:175-186 | with positive metrics every delta is at least 0, is 0 exactly at the baseline value, is 0 for someone, and stays below 100 on CPU1 and CPU2 |
| Metrics.ScaleInvariant | DAAT-MCS/DAAT-MCS_tuner.py:161-196 | multiplying a whole column by a positive number scales the baseline and changes no delta and no class |
| Metrics.MoreConfigsNeverLower | DAAT-MCS/DAAT-MCS_tuner.py:166-196 | adding configurations never lowers the delta or the class of one already there, in either direction of "better" |
| Matrices.PlotSuite.Keys | DAAT-MCS/DAAT-MCS_tuner.py:739-772 | returns the resolved scope or the matching failure, for every dataset and selection |
| Matrices.ResolveMeaning | DAAT-MCS/DAAT-MCS_tuner.py:739-772 | which entries are selected, when resolving fails and with which CPU1 benchmarks listed, and that otherwise all selected entries run the resolved CPU1 benchmark, with exactly the selected benchmarks as columns in alphabetical order and the recorded configurations as rows in theirs |
| Matrices.PlotSuite.BuildMatrices | DAAT-MCS/DAAT-MCS_tuner.py:774-807 | every entry of all six matrices is the delta or class of its cell, NaN where nothing was measured |
| Matrices.PlotSuite.BuildClassMatrices | DAAT-MCS/DAAT-MCS_tuner.py:809-836 | the class-only builder resolves the same scope and fills the same class cells |
| Matrices.BuildersAgree | DAAT-MCS/DAAT-MCS_tuner.py:774-836 | matrices from the two builders are equal entry by entry, and a class is finite exactly where its delta is |
| Matrices.RunBothBuilders | DAAT-MCS/DAAT-MCS_tuner.py:774-836 | running both builders on any dataset gives one scope or one failure, equal class matrices for every CPU, and classes exactly where there are deltas |
| Matrices.CellRange | DAAT-MCS/DAAT-MCS_tuner.py:785-802 | a cell is filled exactly when its run has a positive checkpoint; its delta is then in range |
| Matrices.CellMeaning | DAAT-MCS/DAAT-MCS_tuner.py:785-802 | a cell's delta is the percentage by which its run's metric is worse than the best run of the column, and its class is 0, 1 or 2 exactly as that delta lies within tau, within factor * tau or beyond |
| Matrices.AddingRunsNeverLowers | DAAT-MCS/DAAT-MCS_tuner.py:166-196 | loading more runs for a benchmark keeps every filled cell and never lowers its delta or class |
| Heatmap.Mask | DAAT-MCS/DAAT-MCS_tuner.py:241-255 | the transposed mask is set exactly where all three deltas are finite and inside the widened tolerances |
| Heatmap.Concatenate | DAAT-MCS/DAAT-MCS_tuner.py:257-260 | column x of the joined matrix is entry x % n of group x / n, the fourth group being the NaN-propagating maximum |
| Heatmap.WorstMeaning | DAAT-MCS/DAAT-MCS_tuner.py:257 | the fourth group shows the largest of the three deltas, and NaN exactly when one of them is NaN |
| Heatmap.CellIsFaithful | DAAT-MCS/DAAT-MCS_tuner.py:267-335 | in a CPU group the digit is 0, 1 or 2 exactly as the delta lies within tau, within factor * tau or beyond, blank exactly on NaN, faded exactly on 2; in the intersection group a cell is blank, ticked and solid, or crossed and faded as deltas and mask say |
| Heatmap.Plot | DAAT-MCS/DAAT-MCS_tuner.py:236-335 | for every row and column of the figure, text, opacity and green overlay read back the class, the NaNs and the acceptability of the right configuration and benchmark |
| DecisionTree.NameRoundTrip | DAAT-MCS/DAAT-MCS_tuner.py:600-639 | level and configuration are recovered from a node name, and no such name is ROOT |
| DecisionTree.BuildTree | DAAT-MCS/DAAT-MCS_tuner.py:586-644 | the graph object holds exactly the expected nodes, with their attributes, and exactly the expected edges, also for repeated configurations |
| TreeLaws.EveryNodeNamed | DAAT-MCS/DAAT-MCS_tuner.py:599-641 | ROOT is in the graph, bare of class and caption, and every other node is that of a listed configuration |
| TreeLaws.EdgeShape | DAAT-MCS/DAAT-MCS_tuner.py:599-641 | every edge joins declared nodes of consecutive layers, carries the class of its lower end, and is the only edge into it |
| TreeLaws.ReachableIffOpen | DAAT-MCS/DAAT-MCS_tuner.py:611-641 | a node is reachable from ROOT exactly when every earlier level has class at most 1 |
| TreeLaws.ReachableIffNotShadow | DAAT-MCS/DAAT-MCS_tuner.py:615-641 | a node is reachable exactly when it was not marked shadow |
| TreeLaws.NodeMeaning | DAAT-MCS/DAAT-MCS_tuner.py:602-641 | every node has the layer and caption of its level and configuration; behind levels that all pass it has the ok opacity exactly for a class of at most 1, the bad one exactly for 2, and its own class, otherwise the shadow opacity and class 2 |
| TreeLaws.PassableIffAccepted | DAAT-MCS/DAAT-MCS_tuner.py:599-641 | a path of edges of class at most 1 to the L2 node, three classes at most 1, and an L2 node of class at most 1 are the same thing |
| TreeLaws.ConfigRecovered | DAAT-MCS/DAAT-MCS_tuner.py:579-580 | splitting a node name at its first underscore gives back the configuration, whatever underscores it has itself |
| TreeLaws.LayeredPositions | DAAT-MCS/DAAT-MCS_tuner.py:565-583 | every node of the graph, and nothing else, gets the position of its layer and row |
| TreeLaws.PositionMeaning | DAAT-MCS/DAAT-MCS_tuner.py:565-583 | the node of a level stands half a unit further right per layer, in the row of its configuration, the first of the order at the top; ROOT at the left, in the middle |
| TreeLaws.LayoutInjective | DAAT-MCS/DAAT-MCS_tuner.py:565-583 | distinct nodes get distinct positions and the nodes of one configuration share a row |
| TreeLaws.BucketsPartition | DAAT-MCS/DAAT-MCS_tuner.py:691-703 | with opacities shadow < bad < ok each configuration node is in exactly one bucket, drawn with its own opacity, and each edge in exactly one class pass; the ok bucket holds the nodes whose class and all before are at most 1, the bad bucket those of class 2 behind passed levels, the shadow bucket the rest |
| Ranking.RankConfigs | DAAT-MCS/DAAT-MCS_tuner.py:858-910 | the result is the sorted table of all rows, or the first benchmark's failure |
| Ranking.DetectConfigs | DAAT-MCS/DAAT-MCS_tuner.py:844-855 | returns the ordered set of configurations with a run in the selected scope |
| RankingLaws.RowsAreWellFormed | DAAT-MCS/DAAT-MCS_tuner.py:884-905 | accepted <= total, the rate is in 0..100 and positive exactly when something is accepted, such a row has all three means, and `worst` is the largest mean there is |
| RankingLaws.RowCounts | DAAT-MCS/DAAT-MCS_tuner.py:884-887 | total is the number of columns with all three deltas, accepted the number of columns whose cell is accepted, and rate * total == 100 * accepted, with rate 0 when nothing is counted |
| RankingLaws.RowMeans | DAAT-MCS/DAAT-MCS_tuner.py:889-892 | each CPU's mean times the number of its deltas present is their sum, it is missing when there are none, and `worst` is the largest of the means |
| RankingLaws.RowsInTurn | DAAT-MCS/DAAT-MCS_tuner.py:867-905 | the table before sorting lists the benchmarks in the order given, the first failure winning |
| RankingLaws.RaisingIsNeverStricter | DAAT-MCS/DAAT-MCS_tuner.py:188-193 | raising non-negative taus, or the factor, satisfies the condition under which nothing accepted is lost |
| RankingLaws.LooserNeverLowers | DAAT-MCS/DAAT-MCS_tuner.py:878-892 | under that condition a row's accepted count and rate do not fall, and its total, means and `worst` do not change |
| RankingLaws.TableNeverLowers | DAAT-MCS/DAAT-MCS_tuner.py:867-905 | the same for the whole table, row by row, failures included |
| RankingOrder.KeyOrdersIff | DAAT-MCS/DAAT-MCS_tuner.py:867-908 | for which datasets and arguments the sort key orders the rows: every ranked configuration without an accepted cell has a positive CPU0 checkpoint in scope, or those that have one are a single configuration with one pair of means |
| RankingOrder.NanBreaksTheOrder | DAAT-MCS/DAAT-MCS_tuner.py:907-910 | a dataset whose table, for all tolerances, has no adjacent inversion although its last row belongs before its first |
| RankingOrder.RankingIsOrdered | DAAT-MCS/DAAT-MCS_tuner.py:860-910 | under that condition on the input the result is the only stable sorted permutation of all rows: any two rows stand by falling rate, then rising CPU0 mean, then rising worst mean, then name, and the first row is dominated by no other |
| RankingLaws.RankedConfigsAreDetected | DAAT-MCS/DAAT-MCS_tuner.py:844-910 | ranking fails exactly when a selected CPU0 benchmark has no data; otherwise it ranks exactly the detected configurations, one row per benchmark and configuration |
| Agreement.GraphAgreesWithRanking | DAAT-MCS/DAAT-MCS_tuner.py:586-644 | for all tolerances the graph has an acceptable path to a configuration exactly when the ranking accepts the cell |
| Agreement.ShadowsAreUnreachable | DAAT-MCS/DAAT-MCS_tuner.py:615-641 | in a graph built from the class matrices of any dataset, unreachable and shadow are the same nodes |
| Agreement.NodesShowVerdicts | DAAT-MCS/DAAT-MCS_tuner.py:602-641 | in the graph of a dataset a node is drawn as ok exactly when its configuration is accepted on this CPU and all before it, as bad exactly when this CPU is the first that refuses it |
| Agreement.HeatmapAgreesWithRankingIff | DAAT-MCS/DAAT-MCS_tuner.py:248-255 | heatmap and ranking accept the same cells of every dataset if and only if the tolerances are consistent |
| Agreement.DisagreeingDataset | DAAT-MCS/DAAT-MCS_tuner.py:878 | for any other tolerances, a dataset of integer checkpoints on which they differ |
| Agreement.ThreeViewsAgree | DAAT-MCS/DAAT-MCS_tuner.py:252-255 | for consistent tolerances the heatmap, the ranking and the graph accept the same cells |
| Agreement.ThreeViewsAgreeInScope | DAAT-MCS/DAAT-MCS_tuner.py:252-255 | the same for every scope that resolves and every factor of at least 1 |
| Agreement.RunThreeViews | DAAT-MCS/DAAT-MCS_tuner.py:774-892 | building the mask, the trees and the ranking rows from one dataset by their own code: with consistent tolerances a cell is green exactly when its tree has an acceptable path, and a row's accepted count is the number of its green cells, as the size of a set of columns |
| Agreement.NeverStricterIff | DAAT-MCS/DAAT-MCS_tuner.py:878-892 | a change of tolerances keeps every accepted cell of every dataset if and only if it satisfies the stated condition |
| Latency.CalcLatencies | scripts_graphs/ila_waves_info.py:37-64 | the list holds, for the leading requests in order, the distance to the earliest strictly later response, and no response follows any later request |
| Latency.LatenciesUnique | scripts_graphs/ila_waves_info.py:53-64 | only one list meets that description |
| Latency.LatencyLaws | scripts_graphs/ila_waves_info.py:53-64 | requests are the cycles with the request value and ready "1", and a latency leads to the first later cycle with the response value; exactly the requests before the last response are measured, latencies are at least 1, matched responses never go back, and two requests share one exactly when none lies after the first up to the second |
| Strings.DecimalRoundTrip | scripts_graphs/hist_macro.py:73-83 | reading a printed number gives the number, for every natural number |
| Strings.ParseDecimalConcat | scripts_graphs/hist_macro.py:73-83 | digits count by their place: reading s followed by t is reading s times 10^|t|, plus reading t |
| Strings.OneDigitValue | scripts_graphs/hist_macro.py:73-83 | one digit reads as its value |
| Strings.DecimalCanonical | DAAT-MCS/setup_generator/guests/baremetal.py:408 | a printed number has no leading zero |
| Strings.LessMeaning | DAAT-MCS/DAAT-MCS_tuner.py:44-55 | a string comes first exactly when it is a proper prefix or has the smaller character at the first difference |
| CciNames.NamesInjective | DAAT-MCS/setup_generator/guests/baremetal.py:408 | different experiments have different names, whatever string serves as test type |
| CciNames.TestFolderRoundTrip | scripts_graphs/ila_waves_info.py:70-124 | a printed name, behind any prefix without the head of a name and before any suffix, is parsed back to its experiment |
| CciNames.TestFolderAcceptsIff | scripts_graphs/ila_waves_info.py:70-86 | of the printed names of the three test types, the first parser accepts exactly those with snoop 1 or 2 and coherency 0 or 1 |
| FolderNames.FolderNameRoundTrip | scripts_graphs/hist_macro.py:61-85 | the second parser reads back test type, snoop, channels and coherency of a printed name, numbers of any size, behind any prefix free of DMA test types and numbered tags |
| FolderNames.TagNumberMeaning | scripts_graphs/hist_macro.py:72-83 | a tag's number is the run of digits behind its first occurrence with a digit |
| FolderNames.FolderNameAcceptsIff | scripts_graphs/hist_macro.py:61-85 | the second parser accepts exactly the names with a known test type and all three tags with a digit |
| FolderNames.BothParsersAgree | scripts_graphs/hist_macro.py:61-85 | for the prefixes the framework uses, both parsers recover every printable experiment |
| CciGuests.AffinityMask | DAAT-MCS/setup_generator/guests/baremetal.py:404-406 | the OR loop computes the mask of the id list |
| CciGuests.MaskBits | DAAT-MCS/setup_generator/guests/baremetal.py:404-406 | bit c of the mask is set exactly when CPU c is listed |
| CciGuests.MaskOfSet | DAAT-MCS/setup_generator/guests/baremetal.py:404-406 | lists with the same members have the same mask, whatever their order and repetitions |
| CciGuests.MaskMatchesCpuNum | DAAT-MCS/setup_generator/guests/baremetal.py:45-49 | the mask has as many bits as the cpu_num beside it exactly when no id is repeated |
| CciGuests.CciGuestSet.GetConfigurations | DAAT-MCS/setup_generator/guests/baremetal.py:297-326 | fails exactly with fewer than two CPU lists, leaving the list alone; otherwise appends the enumeration |
| CciGuests.EnumeratedMember | DAAT-MCS/setup_generator/guests/baremetal.py:306-326 | the enumeration is exactly the product space, with one zero-channel run and the solo CPUs for the solo test |
| CciGuests.EnumerationOrder | DAAT-MCS/setup_generator/guests/baremetal.py:306-326 | the order of the enumeration, repeats included: test types outermost, then snoops, coherencies and channels, each list in its order |
| CciGuests.EnumeratedDistinct | DAAT-MCS/setup_generator/guests/baremetal.py:306-326 | duplicate-free lists enumerate no experiment twice |
| CciGuests.CciGuestSet.GenerateGuestConfigFiles | DAAT-MCS/setup_generator/guests/baremetal.py:389-417 | the dictionary is built entry by entry, a repeated name overwriting the earlier entry |
| CciGuests.NoOverwrite | DAAT-MCS/setup_generator/guests/baremetal.py:395-414 | for all lists the dictionary has exactly the experiments' names, and the entry under a name carries that name, the number of CPU ids and a mask with exactly their bits; with duplicate-free lists no two names are equal and there is one entry per experiment |
| Campaign.Engine.GenerateTests | DAAT-MCS/setup_generator/test_engine.py:580-690 | one generation leaves the variants of its names and nothing else; the names are the distinct ones at the front of the extended list |
| Campaign.GenerateSetups | DAAT-MCS/DAAT-MCS_profiler.py:209-238 | passes exactly when every setup has a configuration entry, and then leaves the list of all generations in turn |
| Campaign.FirstForMeaning | DAAT-MCS/DAAT-MCS_profiler.py:210-214 | a setup's entry is the first of its name, and missing exactly when there is none |
| Campaign.RepeatsRemoved | DAAT-MCS/setup_generator/test_engine.py:661-690 | the dictionary keys are the names, each once, in the order of first occurrence |
| Campaign.VariantsAt | DAAT-MCS/setup_generator/test_engine.py:587-611 | the variants of a name stand together, names and variants in their order |
| Campaign.OnlyLastSetup | DAAT-MCS/setup_generator/test_engine.py:584-613 | everything listed in the end was generated for the last setup |
| Campaign.ListsNothingIff | DAAT-MCS/setup_generator/test_engine.py:580-613 | nothing is listed in the end exactly when there is no setup or the last one has no combination or no variant |
| Campaign.OwnNamesIff | DAAT-MCS/setup_generator/test_engine.py:654-690 | a setup's configurations are listed as if it were generated alone exactly when the front of the extended list holds its names in the same order, repeats aside, or it has no variants; without repeated names the front must be these names |
| Campaign.BuildLists | DAAT-MCS/DAAT-MCS_profiler.py:240-251 | builds both lists, one block per setup |
| Campaign.ListsAt | DAAT-MCS/DAAT-MCS_profiler.py:240-251 | position by position: in the pass of the k-th setup, the i-th image and that setup's ports |
| Campaign.PortsMatchImages | DAAT-MCS/DAAT-MCS_profiler.py:240-251 | once every setup has an entry the lists have equal length, and beside each image stand the ports of the setup in whose pass it was listed |
| Campaign.OwnPortsIff | DAAT-MCS/DAAT-MCS_profiler.py:240-251 | these are the ports of the setup the image was generated for, for every image, exactly when all setups have the log ports of the last one, or the last setup has no combination or no variant and so nothing is listed |
| Campaign.SecondSetupMixedUp | DAAT-MCS/setup_generator/test_engine.py:585 | for any two setups of one configuration each and different ports: both images were generated for the second, under the first one's name, and one stands beside the wrong ports |
| Campaign.PortsMatchIff | DAAT-MCS/DAAT-MCS_profiler.py:248-251 | without the check the lengths agree exactly when every setup has an entry or there are no images |
| Campaign.Runner.RunImage | DAAT-MCS/DAAT-MCS_profiler.py:263-370 | one image's retry loop changes timings, completed list and attempts as specified and resets the board once per attempt |
| Campaign.Runner.Run | DAAT-MCS/DAAT-MCS_profiler.py:253-375 | resets are attempts plus one; the run ends in an error, with the board still on, exactly for an empty image list |
| Campaign.RunCampaign | DAAT-MCS/DAAT-MCS_profiler.py:209-375 | generation, lists and campaign succeed exactly when every setup has an entry and the last one has a combination and a variant, and never lack a port list |
| Campaign.ImageAttempts | DAAT-MCS/DAAT-MCS_profiler.py:263-370 | each image gets between one and the limit of attempts, ending in its one success or in exactly that many failures; with the code's limit, between 1 and 10 |
| Campaign.CompletedInOrder | DAAT-MCS/DAAT-MCS_profiler.py:355 | the completed list is the in-order subsequence of the images that completed |
| Campaign.TimingsComplete | DAAT-MCS/DAAT-MCS_profiler.py:348-370 | exactly the image names have timings, that of the last image of the name, N/A exactly when it failed |
| Campaign.TotalAttempts | DAAT-MCS/DAAT-MCS_profiler.py:261-364 | the campaign makes at least one and at most the limit of attempts per image |
| LogLines.ParseLog | scripts_graphs/hist_macro.py:88-133 | the line loop over strings returns the results of the state machine, or the float error that stops it |
| LogLines.StripMeaning | scripts_graphs/hist_macro.py:106 | strip removes all white space at both ends and nothing else |
| LogLines.AfterLastFollows | scripts_graphs/hist_macro.py:116-122 | the text after the last occurrence is the whole text or stands directly behind an occurrence |
| LogLines.NoneAfterLast | scripts_graphs/hist_macro.py:116-122 | and holds no further occurrence |
| LogLines.NumberInMeaning | scripts_graphs/hist_macro.py:110 | the token is the first run of digits and points, taken whole, and missing exactly when there is no such character |
| LogLines.DecimalValue | scripts_graphs/hist_macro.py:112 | the value of a decimal times ten for every digit behind the point is the number all its digits spell |
| LogLines.WholeValue | scripts_graphs/hist_macro.py:112 | a token without a point is the number its digits spell |
| LogLines.FloatAcceptsIff | scripts_graphs/hist_macro.py:112 | exactly the tokens with a digit and at most one point are numbers |
| LogLines.TimeOnNextLine | scripts_graphs/hist_macro.py:105-131 | a header line, a marker line and a line beginning with a decimal yield that one time under that one name, whatever follows the decimal |
| LogLines.TimeOnSameLine | scripts_graphs/hist_macro.py:122-127 | the same for a decimal behind the marker on its own line |
| LogMachine.InvAlways | scripts_graphs/hist_macro.py:98-133 | after every prefix of every log: a pending number has a named benchmark and was announced on the line just read, the current name is that of the last header, credits are genuine and do not overlap, and the results are their last values |
| LogMachine.ParseLogMeaning | scripts_graphs/hist_macro.py:98-133 | every credit is a header-marker-number pattern of the log, each header is credited at most once before the next, and each stored key holds its last credited number |
| LogMachine.CreditedIff | scripts_graphs/hist_macro.py:105-131 | the credits are exactly the patterns of the log whose header is not lost |
| LogMachine.NothingMissedIff | scripts_graphs/hist_macro.py:105-131 | every pattern of the log is credited exactly when no header with a complete pattern is lost |
| LogMachine.SwallowedIffLost | scripts_graphs/hist_macro.py:108-130 | the machine is waiting for a number at a line exactly when the log says so: the line before is a marker without a number, and a named header that is not lost precedes it with neither header nor marker between |
| LogMachine.RaisesIff | scripts_graphs/hist_macro.py:108-130 | parsing raises exactly when some header that is not lost has, where its number should be, a token that `float` refuses; the error names such a token |
| LogLines.HeaderCanBeLost | scripts_graphs/hist_macro.py:108-120 | four lines of text with a complete pattern whose time is lost that way: parsing them yields no result at all |
| Blend.BlendClosedForm | scripts_graphs/hist_macro.py:187-191 | the folded value is x1/2^(k-1) plus the sum of xi/2^(k-i+1) over the later times |
| Blend.BlendBounds | scripts_graphs/hist_macro.py:187-191 | the folded value stays between any bounds of its inputs |
| Blend.BlendIsMeanIff | scripts_graphs/hist_macro.py:187-191 | it is the mean of every list of k times exactly when k is at most 2 |
| Blend.SameSeriesIff | scripts_graphs/hist_macro.py:136-140 | the three label shapes, and two folders share a series exactly when they have the same test type and, unless it is SOLO, the same channels |
| Blend.FolderSlots | scripts_graphs/hist_macro.py:176-191 | a folder has times only for plotted snoops and coherencies, and each of its benchmarks goes to the one slot of its own snoop, coherency and series |
| Blend.MacroData.Collect | scripts_graphs/hist_macro.py:153-191 | after all folders, a slot exists exactly when some folder contributed to it, and holds the blend of its contributions in folder order |

## Left out

- Float rounding: metrics, deltas, tolerances, rates, means and times are exact reals.
- Metric: numpy adds checkpoints in 64-bit integers; the model adds exactly, which differs only when the positive checkpoints of one run reach 2^63 in total.
- RankConfigs: where the condition of `RankingOrder.KeyOrdersIff` fails, Python's sort may return another arrangement than the model's; only permutation and row facts carry over to that case.
- ImageAttempts: the laws of the campaign are stated for any positive limit of attempts; the code's limit, `MAX_RETRIES`, is 10.
- Drawing: colours, fonts, luminance, axes, brackets, the ridgeline plot and the graphical interfaces.
- File names and files: `parse_filename`, `parse_cpu_checkpoints` and directory listing; the model starts from the loaded dataset and from lists of lines.
- CSV typing: the trace model compares the column text; how pandas types a column is not modelled.
- Non-ASCII digits and white space: `\d`, `isdigit` and `strip` are modelled for ASCII.
- Node order of the graph, which only affects drawing order.
- CciGuestSet.GenerateGuestConfigFiles: template substitution is not modelled; an entry is its image name, mask and CPU count.
- The sibling guest classes: their mask loops are the same as the one modelled, their names and enumerations are not modelled; linux.py emits its affinity differently.
- Image names: the regular-expression renaming of a configuration name is an input of the campaign model.
- Test generation: the names of the guest combinations and the text that each colouring and bandwidth variant adds to a name are inputs, the same for every configuration of a setup as `generate_mbr_assignments` makes them; the configuration files and the builds, which overwrite one another by name, are not modelled.
- GenerateSetups: other keys a setup entry must have (guests, colouring, bandwidth) are taken to be present.
- Campaign times: a start time is represented by the number of the attempt; sleeps, builds, serial ports and power control are replaced by the oracle and the reset counter.
- MacroData: the nested dictionaries are one map keyed by the path of a number, so an empty inner dictionary is not represented.
