# phy's GUI core, modelled in Dafny

This project models the parts of phy (a GUI for spike sorting) that keep
state or do index arithmetic, with Qt, OpenGL and numpy's floating point
left out:

- **The docking main window** (`phy/gui/gui.py`), as the class `Gui.GUI`:
  - a list of tracked views, each named after its class ("Foo", then
    "Foo (1)", "Foo (2)", ...) from a per-class counter;
  - removal of a view when its dock is closed;
  - the `view_count`, `list_views` and `get_view` queries, and
    `create_views`;
  - the menu cache, the lockable status bar, and the close protocol, which
    any close listener can veto;
  - the `GUIState` key/value store in `GuiState.GUIState`.
- **The plot axes** (`phy/plot/axes.py`): the bin count for a window
  size, the tick counts of the locator, the one-shot `attach`, and the
  change detection of the zoom and pan handlers.
- **The raster view** (`phy/cluster/views/raster.py`): which spikes are
  shown, the row of each shown spike, and the top-to-bottom flip.
- **The template view** (`phy/cluster/views/template.py`): the box index
  of every vertex, the grid shape, the checks made while plotting, and the
  parsing of a click.
- **The template GUI controller** (`phy/apps/template/gui.py`):
  - the template histogram of a cluster and its dominant template;
  - the background spikes of the feature views;
  - the ranking of similar clusters, cut to 100;
  - the spike times of the trace view and the data of the template feature
    view;
  - the two mutually exclusive display toggles of the waveform view.

Modelling conventions:

- Python exceptions on the modelled paths become `Err(...)` values of
  `Common.Result`.
- Emitted events are appended to an event log (`GUI.events`).
- Qt geometry blobs are opaque strings.
- numpy arrays are sequences. The numpy and phylib helpers are in
  `ArrayOps`.

`_unique` comes from the phylib library (`phylib/io/array.py`), which is
not part of this model. It is modelled as phylib documents it: negative
ids, which mark unclustered spikes, are dropped, then the distinct values
are sorted. `ArrayOps.UniqueClusters` is that function, and the raster
view uses it. `ArrayOps.Unique` is `np.unique`.

`_index_of` is taken from the phylib library, which is not part of this
model. `ArrayOps.IndexOf` follows its construction `idx[lookup] =
arange(len(lookup))`, so the last position of a repeated value wins.

Each state-changing method is proved against functions of the state:
- `NameFor` gives the name `_set_view_name` picks;
- `OfClass` gives the views of a class;
- `Remove` gives the list without a view;
- `PlanFails` and `PlanClasses` say whether a `create_views` plan fails
  and which classes the views it adds have, in order;
- `TickBins` gives the locator's tick count;
- `In1d` and `Compress` give the raster mask and the shown spikes.

The properties of these functions are proved as lemmas:
- names within a class stay pairwise distinct;
- the counts of `view_count` sum to the number of views;
- removal deletes exactly one view;
- a plan adds nothing after its first failure.

## Model

| member | source | states |
|---|---|---|
| Gui.Decimal | phy/gui/gui.py:278 | `'%d' % n` is a non-empty string of digits, one digit exactly for n < 10 |
| Gui.DecimalInjective | phy/gui/gui.py:278 | different indices are written differently |
| Gui.IndexedNamesDistinct | phy/gui/gui.py:278 | "Name (k)" is never the bare name, and differs for different k |
| Gui.AppendNamed | phy/gui/gui.py:264-280 | the name `_set_view_name` picks is not held by any tracked view of the class; after appending and incrementing the counter, every name was issued below its class counter (which is at least 1) and names within a class stay pairwise distinct |
| Gui.RemoveKeepsConsistent | phy/gui/gui.py:336-339 | removing a view from the list (without touching the counters) keeps names within a class distinct and every name below its counter |
| Gui.OfClass | phy/gui/gui.py:254-256 | the filter keeps exactly the views of that class, and no more than the list holds |
| Gui.OfClassAppend | phy/gui/gui.py:256 | the filter keeps insertion order: it distributes over concatenation |
| Gui.Entries | phy/gui/gui.py:279 | the (class, name) pair of each tracked view, in list order |
| Gui.Classes | phy/gui/gui.py:249-252 | the keys of `view_count`: each class with a tracked view, once |
| Gui.SumCountsAppend | phy/gui/gui.py:249-251 | one more view adds one to the sum of the counts of its class |
| Gui.ViewCountsSum | phy/gui/gui.py:246-252 | the counts of `view_count` add up to the number of tracked views |
| Gui.DistinctCountOne | phy/gui/gui.py:252 | a key of the dictionary appears once |
| Gui.Position | phy/gui/gui.py:338 | `list.remove` acts on the first position holding the view |
| Gui.Remove | phy/gui/gui.py:338 | removing a view shortens the list by one |
| Gui.RegistryAppend | phy/gui/gui.py:317-319 | appending an untracked view under the name `_set_view_name` gives it and bumping its counter keeps views distinct and names consistent with the counters |
| Gui.RegistryRemove | phy/gui/gui.py:338 | `_views.remove(view)` with the counters untouched keeps the registry invariant |
| Gui.RemoveExactly | phy/gui/gui.py:336-339 | after `_views.remove(view)`, a view is tracked exactly when it was tracked before and is not the removed one, and no view is tracked twice |
| Gui.RemoveCount | phy/gui/gui.py:336-339 | closing a dock lowers its class's count by one and leaves every other class's count as it was |
| Gui.DockPosition | phy/gui/gui.py:85-90 | `position or 'right'` picks one of the four areas; None and "" mean right; any other name raises KeyError |
| Gui.DockFeatures | phy/gui/gui.py:61-75 | a dock is always movable, and closable or floatable exactly when asked |
| Gui.WindowTitle | phy/gui/gui.py:168-175 | the title is the name, followed by " - subtitle" only for a non-empty subtitle |
| Gui.RestoreGeometryState | phy/gui/gui.py:395-408 | a missing or empty state restores nothing; each of the geometry and the dock state is restored only when present and non-empty; a non-dictionary state has no `get` (AttributeError) |
| Gui.GeometryRoundTrip | phy/gui/gui.py:384-408 | what `save_geometry_state` produces on close, `restore_geometry_state` restores in full on the next show |
| Gui.PlanStep | phy/gui/gui.py:298-312 | each item of `create_views` adds its views when no earlier item failed |
| Gui.PlanStopsAtFailure | phy/gui/gui.py:298-312 | once an item fails, the whole call fails and the later items add nothing |
| Gui.GUI.constructor | phy/gui/gui.py:107-166 | the window starts with no view, no counter, no menu, an unlocked status bar, not closed, and a fresh state loaded under its name ("GUI" by default) |
| Gui.GUI.ListViews | phy/gui/gui.py:254-256 | `list_views(cls)` holds exactly the tracked views of that class |
| Gui.GUI.GetView | phy/gui/gui.py:258-262 | `get_view(cls, i)` is the i-th view of the class, or None when i is at least the count; a negative i counts from the end, and IndexError below minus the count |
| Gui.GUI.NameFor | phy/gui/gui.py:264-280 | AssertionError for a tracked view; otherwise the bare class name exactly when no view of its class is tracked, else "Name (k)" with k the class counter, which must be at least 1 |
| Gui.GUI.FreshNameIsUnique | phy/gui/gui.py:264-280 | in a consistent window the `index >= 1` assertion never fails for a new view, and no tracked view of its class has the name it gets |
| Gui.MapTotalCounts | phy/gui/gui.py:247-252 | a dictionary holding each class's number of views sums, over those classes, to the sum of their counts |
| Gui.GUI.ViewCount | phy/gui/gui.py:246-252 | `view_count` maps exactly the classes with a tracked view, each to its number of tracked views, and its values sum to the number of tracked views |
| Gui.GUI.SetViewName | phy/gui/gui.py:264-280 | the view gets the name `NameFor` picks; a tracked view fails the assertion and keeps its name |
| Gui.GUI.Register | phy/gui/gui.py:317-319 | the view gets the name `_set_view_name` chose, is appended, and only its class's counter goes up, by one, keeping the naming invariant |
| Gui.GUI.DockView | phy/gui/gui.py:325-342 | the dock carries the view's name and the requested features and is placed at the requested area, with `add_view` emitted; an unknown position raises KeyError and nothing is emitted |
| Gui.GUI.AddView | phy/gui/gui.py:314-345 | a tracked view fails and nothing changes; otherwise the view is named, appended and its counter incremented, then docked at the requested area with the requested features and `add_view` emitted; an unknown position raises KeyError after the view was tracked |
| Gui.GUI.OnCloseDockWidget | phy/gui/gui.py:336-339 | closing the dock removes exactly that view, emits `close_view` with it and keeps the counters, so names stay distinct; a view no longer tracked raises ValueError |
| Gui.GUI.CreateAndAddView | phy/gui/gui.py:282-294 | no factory: nothing; a factory returning None: AttributeError; else a new view of the factory's class, added to the window unless it has `attach` |
| Gui.GUI.CreateMoreViews | phy/gui/gui.py:311-312 | the n - 1 extra views of one item, each of the class its factory makes, are appended after the existing ones (none when the views attach themselves) |
| Gui.GUI.CreateItem | phy/gui/gui.py:299-312 | an item with n <= 0 adds nothing; a factory returning None raises AttributeError; otherwise one view of the factory's class, and n - 1 more of that class only when the first has actions, all appended after the existing views |
| Gui.GUI.CreateViews | phy/gui/gui.py:296-312 | `create_views` fails exactly when some item's factory returns None; the views it appends after the existing ones have, in order, the classes `PlanClasses` lists for the items up to the first failure |
| Gui.ItemOutcome | phy/gui/gui.py:303-312 | a first view of an item, then n - 1 more when it has actions, append exactly the classes of `ItemClasses` |
| Gui.PlanClassesFromItems | phy/gui/gui.py:298-312 | every view `create_views` adds is of the class made by the factory of some item asking for at least one view |
| Gui.GUI.GetMenu | phy/gui/gui.py:349-353 | the first call for a name creates a menu and adds it to the menu bar; later calls return the same menu and change nothing |
| Gui.GUI.SetStatusMessage | phy/gui/gui.py:369-373 | while the status is locked the message is left unchanged |
| Gui.GUI.LockStatus | phy/gui/gui.py:375-376 | the status is locked |
| Gui.GUI.UnlockStatus | phy/gui/gui.py:378-379 | the status is unlocked |
| Gui.GUI.OnCloseEvent | phy/gui/gui.py:214-232 | a closed window does nothing; a veto (some listener returned False) only records the `close` emission; otherwise the window is closed, the geometry stored under `geometry_state` and the state saved exactly once |
| Gui.GUI.Show | phy/gui/gui.py:234-237 | `show` emits `show`, whose listener restores the stored geometry state |
| GuiState.Savable | phy/gui/gui.py:460-463 | `save` writes every entry except `name` and `config_dir`, with its value |
| GuiState.Loaded | phy/gui/gui.py:445-458 | a decoded file is merged over the entries with its keys winning; a missing or malformed file leaves them as they are |
| GuiState.ConfigDir | phy/gui/gui.py:425 | `config_dir or phy_config_dir()` |
| GuiState.SaveLoadRoundTrip | phy/gui/gui.py:422-464 | a state saved and loaded into a new state object gives back exactly what was saved |
| GuiState.GUIState.constructor | phy/gui/gui.py:422-427 | the keyword arguments, then `name` and `config_dir`, then what `load` finds |
| GuiState.GUIState.Get | phy/gui/gui.py:165 | the entry under a key, or the default |
| GuiState.GUIState.GetViewState | phy/gui/gui.py:429-431 | the view's entry, or an empty dictionary for an unknown view |
| GuiState.GUIState.UpdateViewState | phy/gui/gui.py:433-439 | the view's entry is created empty when missing, then the update is merged into it; every other entry is unchanged; a non-dictionary entry raises AttributeError |
| GuiState.GUIState.Save | phy/gui/gui.py:460-464 | one more write, of the savable entries |
| Axes.GetNbins | phy/plot/axes.py:96-101 | at least one bin on each axis; the bin count is the whole number of 150 (x) or 80 (y) pixel steps in the size, halved on a high-DPI screen |
| Axes.GetNbinsMonotone | phy/plot/axes.py:96-101 | a larger window never gets fewer bins |
| Axes.TickBins | phy/plot/axes.py:40-42 | an integer request is multiplied by the margin 5; None or a non-integer gives the default (24 on x, 16 on y), not multiplied |
| Axes.ResizeTickBins | phy/plot/axes.py:181-184 | after a resize each axis asks for a positive multiple of 5 ticks, never a default |
| Axes.AxisLocator.constructor | phy/plot/axes.py:33-38 | the tick counts of `set_nbins` with the given requests |
| Axes.AxisLocator.SetNbins | phy/plot/axes.py:40-44 | the tick counts are those of `TickBins` |
| Axes.AxesVisuals | phy/plot/axes.py:165-170 | the visuals of the shown axes, two per axis, none twice |
| Axes.Axes.constructor | phy/plot/axes.py:113-119 | not attached, default tick counts, zoom key (1, 1), pan key (0, 0), no update |
| Axes.Axes.ResetDataBounds | phy/plot/axes.py:121-127 | a new default locator, one update, and the zoom and pan keys reset to (1, 1) and (0, 0) |
| Axes.Axes.Attach | phy/plot/axes.py:159-179 | only the first call attaches: it adds the visuals of the shown axes, updates once and connects the handlers; a second call changes nothing |
| Axes.Axes.OnResize | phy/plot/axes.py:181-186 | the tick counts follow the window size, then one update |
| Axes.Axes.OnZoom | phy/plot/axes.py:188-195 | an update and a new zoom key only when the quantised zoom differs from the last key |
| Axes.Axes.OnPan | phy/plot/axes.py:197-205 | an update and a new pan key only when the truncated scaled pan differs from the last key |
| Axes.TruncateToInt | phy/plot/axes.py:201 | `int(x)` truncates toward zero |
| ArrayOps.Count | phy/apps/template/gui.py:189 | the number of occurrences is zero exactly for an absent value |
| ArrayOps.Unique | phy/apps/template/gui.py:195 | `np.unique` gives the distinct values in increasing order |
| ArrayOps.UniqueClusters | phy/cluster/views/raster.py:37 | `_unique` gives the distinct non-negative cluster ids in increasing order, dropping the unclustered (negative) ones |
| ArrayOps.InsertSortedSpec | phy/cluster/views/raster.py:37 | inserting a value into a strictly increasing list keeps it strictly increasing and adds exactly that value |
| ArrayOps.IncreasingDeterminedByElements | phy/apps/template/gui.py:195 | a strictly increasing sequence is determined by its elements, so `Unique` is fully specified |
| ArrayOps.BinCount | phy/apps/template/gui.py:189 | `np.bincount(xs, minlength)` counts each value, with at least `minlength` entries and an entry for every value |
| ArrayOps.BinCountTotal | phy/apps/template/gui.py:189 | the histogram's entries sum to the number of values |
| ArrayOps.Arange | phy/apps/template/gui.py:358 | `np.arange(0, stop, step)`: the multiples of the step below `stop`, up to the last one, in increasing order |
| ArrayOps.Intersect1d | phy/apps/template/gui.py:365 | the sorted values common to both arrays |
| ArrayOps.In1d | phy/cluster/views/raster.py:54 | the mask is true exactly where the value is in the lookup |
| ArrayOps.TrueIndices | phy/cluster/views/raster.py:57 | every reported position is inside the mask and holds a true entry |
| ArrayOps.TrueIndicesSpec | phy/cluster/views/raster.py:57 | the reported positions increase and are exactly the positions of the true entries |
| ArrayOps.Compress | phy/cluster/views/raster.py:57 | boolean-mask indexing keeps the masked entries in their order |
| ArrayOps.IndexOf | phy/cluster/views/raster.py:61 | the position of a value in the lookup, the last one when repeated |
| ArrayOps.Max | phy/cluster/views/raster.py:47 | the largest value of a non-empty array |
| ArrayOps.ArgMax | phy/apps/template/gui.py:196 | `np.argmax`: the first position of the largest value |
| Raster.RasterView.constructor | phy/cluster/views/raster.py:30-37 | the spike clusters are stored, the bounds reach one past the largest cluster, and the shown clusters are the distinct non-negative clusters in increasing order, so a spike is shown exactly when it is clustered |
| Raster.RasterView.SetSpikeClusters | phy/cluster/views/raster.py:44-47 | the clusters are stored and the bounds are (0, 0, duration, max + 1), above every cluster's row; the mask is not recomputed; an empty array raises ValueError after being stored |
| Raster.RasterView.SetClusterIds | phy/cluster/views/raster.py:49-54 | the shown clusters are stored, `n_clusters` is their number, and the mask is true exactly for spikes of a shown cluster |
| Raster.RasterView.GetX | phy/cluster/views/raster.py:56-57 | the times of the spikes of shown clusters, in their original order |
| Raster.RasterView.GetY | phy/cluster/views/raster.py:59-61 | for each shown spike, the position of its cluster among the shown clusters, in [0, n_clusters), as many as `_get_x` |
| Raster.RasterView.PlotRows | phy/cluster/views/raster.py:68-77 | rows `n - 1 - y` lie in [0, n); the first shown cluster is the top row and the row order reverses the cluster order |
| TemplateViews.BoxIndex | phy/cluster/views/template.py:69-73 | the box index has `n_channels_loc * n_samples` rows, each in a valid channel box and in column i |
| TemplateViews.BoxIndexLayout | phy/cluster/views/template.py:69-73 | sample s of local channel c is at row c * n_samples + s, in the box of that channel's position among all channels |
| TemplateViews.BoxIndexSize | phy/cluster/views/template.py:73-74 | the box index has two entries per template value |
| TemplateViews.Failure | phy/cluster/views/template.py:53-59 | a cluster stops the plot when it has no template (KeyError) or when its column count differs from its channel count (AssertionError) |
| TemplateViews.ClickKey | phy/cluster/views/template.py:104-108 | a click acts only with Control held or a digit key; the key reported is that digit, otherwise None |
| TemplateViews.ClickKeyDigit | phy/cluster/views/template.py:106-108 | holding digit d reports d, whatever the modifiers |
| TemplateViews.TemplateView.constructor | phy/cluster/views/template.py:33-44 | `n_channels` is the number of channel ids |
| TemplateViews.TemplateView.PlotTemplates | phy/cluster/views/template.py:50-82 | one box index per cluster, in order, when every cluster passes its checks; otherwise the error of the first cluster that fails |
| TemplateViews.TemplateView.Plot | phy/cluster/views/template.py:89-98 | the grid shape is (number of channels, number of templates returned); the canvas is cleared first; when every cluster passes, each cluster's batch is its box index in its column, otherwise nothing stays drawn |
| TemplateViews.TemplateView.OnMouseClick | phy/cluster/views/template.py:104-113 | an accepted click reports the clicked column's cluster with the digit and the button; a column past the cluster list raises IndexError |
| TemplateControl.Gather | phy/apps/template/gui.py:188 | `xs[ids]` takes the entry at each id, and raises IndexError for an id past the end |
| TemplateControl.ClusterTemplates | phy/apps/template/gui.py:187-188 | the template of each spike of the cluster; KeyError for an unknown cluster |
| TemplateControl.TemplateCounts | phy/apps/template/gui.py:184-189 | entry t counts the cluster's spikes of template t, with an entry for every template below `n_templates` |
| TemplateControl.TemplateCountsTotal | phy/apps/template/gui.py:184-189 | the histogram accounts for every spike of the cluster once |
| TemplateControl.Dominant | phy/apps/template/gui.py:195-197 | the dominant value is one of the values |
| TemplateControl.DominantIsFirstMax | phy/apps/template/gui.py:195-197 | the dominant value occurs most often, and no smaller value occurs as often |
| TemplateControl.TemplateForCluster | phy/apps/template/gui.py:191-197 | a template of the cluster, or the lookup error; ValueError for a cluster without spikes |
| TemplateControl.DominantTemplate | phy/apps/template/gui.py:184-197 | the dominant template has the largest entry of `get_template_counts`, and on a tie it is the smallest template id |
| TemplateControl.BackgroundStep | phy/apps/template/gui.py:354-358 | the stride `max(1, n_spikes // 2500)` is at least 1, and 1 below 5000 spikes |
| TemplateControl.SpikeIds | phy/apps/template/gui.py:353-366 | with feature rows, the result is sorted and distinct and holds exactly the spikes that are both candidates and rows, the candidates being the strided spikes without a cluster and the selector's spikes with one; without rows, a cluster's spikes are the selector's |
| TemplateControl.ArangeComplete | phy/apps/template/gui.py:358 | every multiple of the stride below `n_spikes` is a background spike |
| TemplateControl.ArangeAll | phy/apps/template/gui.py:358 | with stride 1, every spike is a background spike |
| TemplateControl.BackgroundSpikes | phy/apps/template/gui.py:355-358 | the background spikes are 0, s, 2s, ... below `n_spikes`, in increasing order and all of them; below 5000 spikes, every spike |
| TemplateControl.BackgroundWithFeatureRows | phy/apps/template/gui.py:364-365 | with feature rows, the background spikes are exactly the strided spikes that have a row |
| TemplateControl.SelectorSpikes | phy/apps/template/gui.py:176-179 | the selector draws from the cluster's spikes, or from spike 0 for an unknown cluster |
| TemplateControl.SelectorNotEmpty | phy/apps/template/gui.py:176-179 | the selector always has a spike to draw from unless a known cluster has none |
| TemplateControl.InsertByScorePerm | phy/apps/template/gui.py:227 | inserting an entry adds exactly that entry, and the new head is the entry or the old head |
| TemplateControl.InsertByScoreSpec | phy/apps/template/gui.py:227 | inserting into a ranked list keeps it ranked and adds exactly that entry |
| TemplateControl.SortByScore | phy/apps/template/gui.py:227 | the sort ranks by non-increasing score and is a permutation of its input |
| TemplateControl.Similarity | phy/apps/template/gui.py:210-227 | at most 100 (cluster, score) pairs, all of them when fewer, ranked by non-increasing score, and a sub-multiset of the scored clusters `out`, so each pair is a current cluster with its own score and no pair is repeated |
| TemplateControl.ScoredOnce | phy/apps/template/gui.py:224-225 | with distinct cluster ids, each (cluster, score) pair occurs at most once in `out` |
| TemplateControl.SimilarityDistinct | phy/apps/template/gui.py:224-227 | with distinct cluster ids, no cluster is listed twice in the result |
| TemplateControl.SimilarityKeepsBest | phy/apps/template/gui.py:224-227 | a cluster left out of the list scores no more than the last cluster kept |
| TemplateControl.TraceSpikeTimes | phy/apps/template/gui.py:473-481 | nothing when no cluster is selected; else the times of every spike of the first selected cluster; KeyError for an unknown cluster |
| TemplateControl.TraceTimesSorted | phy/apps/template/gui.py:478-481 | increasing spike ids in a recording with sorted times give sorted trace times |
| TemplateControl.MinOf | phy/apps/template/gui.py:425-426 | `xs.min()` is a value of xs below every other |
| TemplateControl.MaxOf | phy/apps/template/gui.py:427-428 | `xs.max()` is a value of xs above every other |
| TemplateControl.BoundsAsWrittenCutPoints | phy/apps/template/gui.py:425-429 | with the largest x taken from the y values, a point of the first cluster falls outside the bounds |
| TemplateControl.TemplateFeatureBounds | phy/apps/template/gui.py:424-429 | each side of the corrected bounds is a coordinate of some point |
| TemplateControl.BoundsEnclose | phy/apps/template/gui.py:424-429 | every point of both clusters lies inside the corrected bounds |
| TemplateControl.TemplateFeatures | phy/apps/template/gui.py:405-430 | AssertionError exactly when not given two clusters; otherwise the projections of the two clusters, with the corrected bounds, which hold every point and agree with the bounds as written in every entry but the largest x |
| TemplateControl.GetData | phy/apps/template/gui.py:47-51 | nothing unless exactly two clusters are given |
| TemplateControl.GetDataNeverAsserts | phy/apps/template/gui.py:47-51 | `_get_data` never triggers the assertion of `_get_template_features`; with two clusters it returns one set of points per cluster |
| TemplateControl.WaveformToggles.constructor | phy/apps/template/gui.py:301-308 | the view plots the waveforms when there are traces, else the templates |
| TemplateControl.WaveformToggles.OnViewActionsCreated | phy/apps/template/gui.py:317-337 | `show_what` defaults to the waveforms; the shown display is plotted and only its box is ticked |
| TemplateControl.WaveformToggles.ToggleTemplates | phy/apps/template/gui.py:326-335 | checking unticks the mean-waveforms box; the templates or the waveforms are shown; without traces, going back to the waveforms returns before changing the plotted function |
| TemplateControl.WaveformToggles.ToggleMeanWaveforms | phy/apps/template/gui.py:337-344 | checking unticks the templates box; the mean waveforms or the waveforms are shown and plotted |
| TemplateControl.WaveformToggles.ClickTemplates | phy/apps/template/gui.py:326-335 | a click keeps each box ticked exactly when its display is shown, so never both |
| TemplateControl.WaveformToggles.ClickMeanWaveforms | phy/apps/template/gui.py:337-344 | a click keeps each box ticked exactly when its display is shown, so never both |

## Left out

- Qt itself is not modelled:
  - widget construction, rendering, window position and size;
  - `_wait` and `QMessageBox`;
  - the delivery of key and mouse events.
  A dock is reduced to its title, feature flags, area and floating flag.
- A geometry blob is an opaque string.
- The `emit`/`connect` event bus is an appended event log.
- Close listeners' results are optional booleans, and a veto is a
  `Some(false)` among them. Python's `False in res` would also match a
  listener returning 0; this is not modelled.
- JSON reading and writing, and the creation of the config directory, are
  file I/O. `load` finds a missing, malformed or decoded file. `save`
  appends the dictionary it writes to `GUIState.written`.
- Foreign library calls are not modelled: the matplotlib and OpenGL canvas
  adaptation, the tick computation of `MaxNLocator`, `set_view_bounds`,
  the NDC transforms, and the drawing of visuals.
- `_quant_zoom` is floating-point work. `Axes.Axes.OnZoom` takes the
  quantised pair.
- `Axes.Axes.Attach` treats every canvas as attached. `if self._attached`
  tests the canvas object's truthiness, and canvas objects are always true.
- Gui.GUI.CreateAndAddView: a view's own `attach(gui)` is not modelled,
  and the model assumes it leaves the registry alone. Views that register
  themselves through `gui.add_view` inside `attach` are therefore not
  among the views `CreateViews` and `PlanClasses` predict.
- Gui.GUI.CreateViews: the "add view" actions it registers are left out,
  and so is the fact that the views it appends are new objects.
- `create_views` walks `view_count.items()`, which is a dictionary. The
  model takes a sequence of (class, count) pairs in the dictionary's order.
- `phy/apps/template/gui.py:580` passes `view_count={...}` to `GUI`, and
  `phy/apps/template/gui.py:584` calls `gui.create_views()` with no
  argument. Neither matches `create_views(view_count)` at
  `phy/gui/gui.py:296`, so that wiring is not modelled.
- Some test assertions of `phy/gui/tests/test_gui.py` do not match the
  code, and the model follows the code:
  - string arguments to `list_views` and `get_view` (lines 70-71);
  - `view_count()` called as a function (line 126);
  - view names passed as the position argument of `add_view` (lines
    121-123), which `_get_dock_position` rejects with KeyError;
  - the order of the dock's own close listener relative to `close_view`
    (lines 85-86). The model records only the `close_view` emission.
- ArrayOps.IndexOf: phylib's `_index_of` is modelled for values present in
  the lookup. A value missing from the lookup is excluded by a
  precondition, because what it yields depends on a scratch array that is
  not part of this model.
- Raster.RasterView.constructor requires at least one spike and as many
  clusters as spike times. The source reads `spike_times[-1]` and asserts
  equal lengths, so other inputs crash before any state exists.
- `duration = spike_times[-1] * 1.01` is kept as a real. Colours, marker
  sizes and the median data bounds of the template view are
  floating-point work.
- Raster.RasterView.GetY, PlotRows and GetX require the view's invariant.
  It holds after the constructor and after `set_cluster_ids`. After
  `set_spike_clusters` alone the old mask can select a spike whose cluster
  is no longer shown. There `_index_of` reads the scratch array described
  above, which is not modelled.
- `on_select` is left out. In `phy/cluster/views/raster.py:82-84` and
  `phy/cluster/views/template.py:84-87` it does nothing, with or without
  clusters.
- TemplateViews.TemplateView.OnMouseClick takes the clicked grid column as
  a parameter. The position-to-box mapping `box_map` is layout code that is
  not part of this model.
- TemplateViews.TemplateView.PlotTemplates and TemplateViews.TemplateView.Plot
  require every template's channels to be among the view's channels.
  `_index_of` is only modelled for present values.
- TemplateControl.Similarity: the score of each cluster is a parameter. The
  source computes it from the template similarity matrix with
  floating-point maxima.
- TemplateControl.Similarity: Python's sort is stable. The model proves the
  ranking, and that the result is drawn from `out` without repetition, but
  not the order among equal scores, nor which of several equal scores at
  the cut are kept.
- TemplateControl.TemplateFeatures returns the corrected bounds of the
  finding below. Its largest x is taken from the x values; the source
  takes it from the y values. The other three entries are as written.
  `TemplateFeatureBoundsAsWritten` keeps the source's bounds.
- TemplateControl.MinOf and MaxOf repeat `ArrayOps.Max` over `real`.
  Dafny has no generic ordering to share one definition between `int` and
  `real`.
- Axes.Axes.OnPan takes the pan and the zoom as exact reals. The product
  `px * zx` is floating-point in the source, and rounding near an integer
  can change the truncated key.
- TemplateControl.SpikeIds: with a cluster, `Selector.select_spikes` is
  phylib code. Its result enters as a parameter.
- The spike features themselves are not modelled: `_get_features` and its
  NaN-row removal, amplitudes, mean waveforms and template waveforms.
- The weighted averages of `_get_template_features` enter as a projection
  function.
- WaveformToggles: a `show_what` restored from the GUI state is one of the
  three known displays. An unknown string would raise KeyError in
  `funs[v.show_what]`.
- Correlograms, firing rates, the `TemplateModel` data access, the
  supervisor, plugins, caching, and the command-line entry points are I/O
  or library code.
- `phy/cluster/views/__init__.py` only re-exports names.

## Findings

| source | as written | input that shows it | evidently intended | confidence | as-written member | corrected member |
|---|---|---|---|---|---|---|
| phy/apps/template/gui.py:425-429 | `data_bounds` is `(min x, min y, max y, max y)`: the third entry, the largest x, is computed from the y values | x0 = [2.0], y0 = [0.0], x1 = [1.0], y1 = [0.0]: the bounds' largest x is 0.0, and the point (2.0, 0.0) lies outside | `max(x0.max(), x1.max())` as the third entry, so that the bounds hold every point | medium, not executed | TemplateControl.BoundsAsWrittenCutPoints | TemplateControl.BoundsEnclose |
