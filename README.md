# VideoHub front-end rules in Dafny

This project models the rules of the VideoHub front end, a React site for browsing game videos. The markup is not modelled. The rules are small state machines, formatters and filters spread over its components and pages:

- **Carousel**: the index controller of the carousel block. It holds the current page index, the two scroll-bound flags and the auto-play interval handle, driven by clicks, dot jumps, interval ticks, scroll notifications, hovering and unmounting.
  - It is specified as a pure transition function `Carousel.Step` over a state record.
  - `Carousel.CarouselController` holds the same state in mutable fields. Each of its handlers is proved to perform exactly one `Step` and to keep the controller invariant.
  - Intervals are modelled by identifiers. `live` holds the intervals that are scheduled and not cleared, and `autoPlayRef` is the handle the component keeps.
- **VideoCard**: the card's formatters.
  - `formatDuration` (`H:MM:SS` / `M:SS`) has a parser partner and round trips in both directions.
  - `formatViews` is modelled by branch and suffix.
  - `formatTimeAgo` is modelled as a function of elapsed seconds, with exact bucket boundaries.
  - Also modelled: the thumbnail fallback, what each card variant shows, and the slug-based link.
- **PlaylistCard**: the card's formatters.
  - Its `formatDuration` (`N ч M мин`) drops the seconds, and it has a parser partner.
  - Its `formatTimeAgo` has no month bucket.
  - Also modelled: the visibility icon and label maps, and its link.
- **SearchPage**: the result effect, which is:
  - a trimmed-query guard;
  - a case-insensitive substring filter on title or author;
  - an optional category restriction;
  - a sort chosen by name.

  Results are proved sound, complete and order-preserving, and a permutation of the matching videos under any sort.
- **CategoriesPage**: the catalogue of twelve categories, the name/description search, the no-results condition and the total-videos statistic.
- **FilterBar**: the flags and counts derived from the props, the sort option lookup with its fallbacks, the arguments each control passes to its callback, the active-filter summary and the mobile expander flag.
- **Header**: the search submit guard, exact-match active links, the mobile menu flag and the choice between the user menu and the sign-in links.
- **RegisterPage**: the form record updated one field at a time, the show-password and terms flags, the password-confirmation check and the submit-disabled rule.
- **VideoGrid**: the choice of view (skeleton, empty state, list or grid), the placeholder count and the column class map.

JavaScript built-ins are modelled in shared modules:

- **Text**: `trim`, `toLowerCase` and `includes`.
- **Decimal**: `Number#toString` and `padStart(2, '0')` on naturals, with a decimal reader.
- **Sequences**: `filter` and a comparator `sort`.
- **RelativeTime**: the shared "N unit назад" text, with a reader.
- **Wrappers**: `Option`.

The carousel's right-bound flag `canScrollRight` is `scrollLeft < scrollWidth − clientWidth − 1`, a strict comparison with a one-pixel slack. So scrollLeft 599, scrollWidth 1000 and clientWidth 400 give false, and 598 gives true (`Carousel.RightEdgeSlack`).

## Model

| member | source | states |
|---|---|---|
| Carousel.MaxIndex | src/components/blocks/Carousel.tsx:33-34 | The last page index is never negative and at least totalItems − itemsPerView. It equals that difference or zero, and it is positive exactly when the items do not fit one view. |
| Carousel.CanScrollLeft | src/components/blocks/Carousel.tsx:39 | The left flag: content scrolled past the left edge. Its rule, and that a scroll sets it and nothing else, are stated by Carousel.ScrollRecomputesFlags and Carousel.RightEdgeSlack. |
| Carousel.CanScrollRight | src/components/blocks/Carousel.tsx:40 | The right flag, with its strict one-pixel slack. It is specified by Carousel.ScrollRecomputesFlags and pinned at the boundary by Carousel.RightEdgeSlack. |
| Carousel.Init | src/components/blocks/Carousel.tsx:27-31 | The mount-time state. Carousel.InitInvariant states its values and that it satisfies the invariant. |
| Carousel.ScrollTo | src/components/blocks/Carousel.tsx:44-54 | The index change of `scrollToIndex`, guarded by the container. It is specified by Carousel.CarouselController.ScrollToIndex and, through the clicks, by Carousel.PrevNextClamp. |
| Carousel.Step | src/components/blocks/Carousel.tsx:44-111 | The reaction to one event. It is specified by Carousel.StepInvariant, Carousel.PrevNextClamp, Carousel.TickWraps, Carousel.ScrollRecomputesFlags, the hover lemmas and Carousel.UnmountedIsInert, and every controller handler is proved equal to it. |
| Carousel.PrevIndex | src/components/blocks/Carousel.tsx:56-59 | The previous target is never negative. It is index − 1 above zero and 0 otherwise. |
| Carousel.NextIndex | src/components/blocks/Carousel.tsx:61-64 | The next target never exceeds maxIndex. It stays at maxIndex from there on, and is index + 1 below it. |
| Carousel.WrapNext | src/components/blocks/Carousel.tsx:80-84 | The auto-play target is at most maxIndex and, from a non-negative index, at least 0. It is 0 from maxIndex on and index + 1 below. |
| Carousel.DotCount | src/components/blocks/Carousel.tsx:203-208 | There are maxIndex + 1 dots exactly when the carousel renders and has more items than one view. Otherwise there are none. |
| Carousel.Dots | src/components/blocks/Carousel.tsx:205-211 | There is one entry per dot, and dot k is highlighted exactly when k is the current index. |
| Carousel.InitInvariant | src/components/blocks/Carousel.tsx:27-29 | The initial state has index 0, the left flag false and the right flag true, and satisfies the invariant. An interval is live at mount exactly when auto-play is enabled. |
| Carousel.StepInvariant | src/components/blocks/Carousel.tsx:44-111 | Every event keeps the index within [0, maxIndex] and only hands out fresh interval identifiers. Without auto-play there is never an interval. |
| Carousel.RunInvariant | src/components/blocks/Carousel.tsx:44-111 | The invariant holds after any sequence of events. |
| Carousel.IndexAlwaysOnAPage | src/components/blocks/Carousel.tsx:203-211 | After any events from mount, the index is a valid page start and exactly one dot is highlighted. |
| Carousel.NoTimerUnlessEnabled | src/components/blocks/Carousel.tsx:77-79 | Unless autoPlay holds and totalItems > itemsPerView, no interval is ever scheduled or held. |
| Carousel.PrevNextClamp | src/components/blocks/Carousel.tsx:56-64 | Previous moves to max(0, index − 1) and is a no-op at 0. Next moves to min(maxIndex, index + 1) and is a no-op at maxIndex. |
| Carousel.TickWraps | src/components/blocks/Carousel.tsx:79-85 | A tick of a live interval wraps from maxIndex to 0 and otherwise advances by one. |
| Carousel.ScrollRecomputesFlags | src/components/blocks/Carousel.tsx:36-42 | A scroll notification sets canScrollLeft ⇔ scrollLeft > 0 and canScrollRight ⇔ scrollLeft < scrollWidth − clientWidth − 1, and changes nothing else. |
| Carousel.NothingRenderedNoInput | src/components/blocks/Carousel.tsx:113-115 | With zero items nothing renders, so no click, hover or scroll changes the state. |
| Carousel.MouseLeaveArmsFresh | src/components/blocks/Carousel.tsx:101-111 | Mouse leave schedules a fresh interval and overwrites the handle with it. The previously live intervals stay live. |
| Carousel.MouseEnterPauses | src/components/blocks/Carousel.tsx:95-99 | Mouse enter clears the held interval but keeps the handle, so a carousel holding only that interval pauses. |
| Carousel.HoverThenLeaveResumes | src/components/blocks/Carousel.tsx:95-111 | Enter followed by leave resumes auto-play with exactly one live interval, the fresh one. |
| Carousel.LeaveWithoutEnterLeaks | src/components/blocks/Carousel.tsx:87-111 | Leave then unmount leaves the mount-time interval live forever. Enter, leave, unmount leaves none. |
| Carousel.UnmountedIsInert | src/components/blocks/Carousel.tsx:87-91 | Once unmounted, no sequence of events changes the state, not even ticks of leaked intervals. |
| Carousel.SixItemsFourPerView | src/components/blocks/Carousel.tsx:33-34 | Six items at four per view give maxIndex 2, three dots and a wrap from index 2. Four items at four per view give no dots and no auto-play. |
| Carousel.RightEdgeSlack | src/components/blocks/Carousel.tsx:39-40 | At 599/1000/400 the right flag is false, at 598 it is true, and at scrollLeft 0 the left flag is false. |
| Carousel.CarouselController.constructor | src/components/blocks/Carousel.tsx:27-31 | Mounting yields the initial state, with the interval armed when enabled. |
| Carousel.CarouselController.ScrollToIndex | src/components/blocks/Carousel.tsx:44-54 | The index moves to the target only when the scroll container exists. |
| Carousel.CarouselController.ScrollLeft | src/components/blocks/Carousel.tsx:56-59 | The handler performs the step for a previous click and keeps the invariant. |
| Carousel.CarouselController.ScrollRight | src/components/blocks/Carousel.tsx:61-64 | The handler performs the step for a next click and keeps the invariant. |
| Carousel.CarouselController.ClickDot | src/components/blocks/Carousel.tsx:205-208 | A dot click performs the step that jumps to that dot's page, and keeps the invariant. |
| Carousel.CarouselController.OnTick | src/components/blocks/Carousel.tsx:79-85 | The interval callback performs the wrap-around step and keeps the invariant. |
| Carousel.CarouselController.UpdateScrollState | src/components/blocks/Carousel.tsx:36-42 | The function performs the flag recomputation step and keeps the invariant. |
| Carousel.CarouselController.HandleMouseEnter | src/components/blocks/Carousel.tsx:95-99 | The handler performs the clear-held-interval step and keeps the invariant. |
| Carousel.CarouselController.HandleMouseLeave | src/components/blocks/Carousel.tsx:101-111 | The handler performs the re-arm step and keeps the invariant. |
| Carousel.CarouselController.HandleUnmount | src/components/blocks/Carousel.tsx:87-91 | The effect cleanup clears the handle held at that moment and marks the carousel unmounted. |
| VideoCard.DurationParts | src/components/cards/VideoCard.tsx:34-37 | Hours·3600 + minutes·60 + seconds recombine to the input, with minutes < 60 and seconds < 60. |
| VideoCard.DurationPartsUnique | src/components/cards/VideoCard.tsx:35-37 | Any decomposition with minutes and seconds below 60 is the one computed. |
| VideoCard.FormatDuration | src/components/cards/VideoCard.tsx:34-43 | `formatDuration`. It is specified by the round trips VideoCard.ParseFormatDuration, VideoCard.FormatParseDuration and VideoCard.FormatDurationIff, and by VideoCard.ShortFormUnderAnHour. |
| VideoCard.ParseFormatDuration | src/components/cards/VideoCard.tsx:39-42 | Reading the H:MM:SS or M:SS text back gives the seconds again. |
| VideoCard.FormatParseDuration | src/components/cards/VideoCard.tsx:39-42 | Any text the reader accepts is exactly the formatted text of the seconds it reads. |
| VideoCard.FormatDurationIff | src/components/cards/VideoCard.tsx:39-42 | A text is the formatted duration of s exactly when it reads back as s. |
| VideoCard.ShortFormUnderAnHour | src/components/cards/VideoCard.tsx:42 | Under an hour the text is the unpadded minutes, ':' and the two-digit seconds. |
| VideoCard.FormatViews | src/components/cards/VideoCard.tsx:45-53 | Suffix "M" exactly from 1,000,000 and "K" exactly in [1000, 1,000,000). Below 1000 it is the plain decimal text of the views. The scaled value is at least 1 (and below 1000 for "K"), and times 1,000,000 or 1,000 it is exactly the view count. |
| VideoCard.TimeAgo | src/components/cards/VideoCard.tsx:58-65 | The age bucket of `formatTimeAgo`. It is specified by VideoCard.TimeAgoBuckets, VideoCard.TimeAgoCountIsFloor and VideoCard.TimeAgoMonotone. |
| VideoCard.FormatTimeAgo | src/components/cards/VideoCard.tsx:55-66 | `formatTimeAgo`'s text. RelativeTime.ParseAgoText shows that the bucket can be read back from it, and RelativeTime.AgoTextInjective that distinct buckets give distinct texts. |
| VideoCard.TimeAgoBuckets | src/components/cards/VideoCard.tsx:60-65 | Each bucket holds exactly on its range: below 60 (negatives included), below 3600, 86400, 604800 and 2592000, then months. The count in each bucket is at least 1. |
| VideoCard.TimeAgoCountIsFloor | src/components/cards/VideoCard.tsx:61-65 | The count is the floor of the difference divided by the bucket's unit. |
| VideoCard.TimeAgoMonotone | src/components/cards/VideoCard.tsx:60-65 | A larger difference never renders a more recent age. |
| VideoCard.Thumbnail | src/components/cards/VideoCard.tsx:75 | The image is the first thumbnail when present and non-empty, otherwise the fixed default path. It is never empty. |
| VideoCard.CardLinksBySlug | src/components/cards/VideoCard.tsx:79-163 | Every variant links to "/video/" + slug, and two cards link alike exactly when their slugs agree. |
| VideoCard.BadgeFor | src/components/cards/VideoCard.tsx:208-212 | The category badge. It is specified by VideoCard.CategoryBadgeRule. |
| VideoCard.RenderCard | src/components/cards/VideoCard.tsx:77-218 | The three card variants. They are specified by VideoCard.CardLinksBySlug, VideoCard.CategoryBadgeRule and VideoCard.CardElements. |
| VideoCard.CategoryBadgeRule | src/components/cards/VideoCard.tsx:208-212 | The badge shows the first category's name exactly when showCategory holds, the card is not compact and a first category exists. |
| VideoCard.CardElements | src/components/cards/VideoCard.tsx:100-207 | Views show except on a horizontal card without the author. The author shows on non-compact cards when asked for, the channel link shows on the default card only, and the age shows everywhere but compact. |
| RelativeTime.ParseAgoText | src/components/cards/VideoCard.tsx:60-65 | The "N unit назад" / "только что" text of every age reads back as that age. |
| RelativeTime.AgoTextInjective | src/components/cards/VideoCard.tsx:60-65 | Two ages render the same text exactly when they are equal. |
| RelativeTime.AgoText | src/components/cards/VideoCard.tsx:60-65 | The "N unit назад" / "только что" text. It is specified by RelativeTime.ParseAgoText and RelativeTime.AgoTextInjective. |
| Decimal.NatToStringValue | src/components/cards/VideoCard.tsx:40 | `toString` of a natural is canonical decimal (no leading zero) whose value is the number. |
| Decimal.ValueNatToString | src/components/cards/VideoCard.tsx:40 | Every canonical decimal text is the `toString` of its value. |
| Decimal.TwoDigitsValue | src/components/cards/VideoCard.tsx:40 | `padStart(2, '0')` of a number below 100 is two digits with that value. |
| Decimal.TwoDigitsText | src/components/cards/VideoCard.tsx:40 | Any two-digit text is the padded text of its value. |
| Decimal.NatToString | src/components/cards/VideoCard.tsx:40 | `toString` of a natural. It is specified by Decimal.NatToStringValue and Decimal.ValueNatToString. |
| Decimal.PadStart2 | src/components/cards/VideoCard.tsx:40 | `padStart(2, '0')`. It is specified by Decimal.TwoDigitsValue and Decimal.TwoDigitsText. |
| PlaylistCard.MinutesFieldBelowSixty | src/components/cards/PlaylistCard.tsx:30-31 | The minutes field is below 60, and hours·60 + minutes is the number of whole minutes. |
| PlaylistCard.FormatDuration | src/components/cards/PlaylistCard.tsx:29-37 | `formatDuration`. It is specified by PlaylistCard.MinutesFieldBelowSixty, PlaylistCard.DependsOnlyOnWholeMinutes and the round trips PlaylistCard.ParseFormatDuration and PlaylistCard.FormatParseDuration. |
| PlaylistCard.DependsOnlyOnWholeMinutes | src/components/cards/PlaylistCard.tsx:29-37 | Two durations with the same whole minutes render the same text. |
| PlaylistCard.FiftyNineSecondsIsZeroMinutes | src/components/cards/PlaylistCard.tsx:36 | 59 seconds render as "0 мин". |
| PlaylistCard.ParseFormatDuration | src/components/cards/PlaylistCard.tsx:33-36 | Reading the "{h} ч {m} мин" / "{m} мин" text back gives the whole minutes of the duration. |
| PlaylistCard.FormatParseDuration | src/components/cards/PlaylistCard.tsx:33-36 | A text that reads as m minutes is exactly the text of m·60 seconds. |
| PlaylistCard.TimeAgo | src/components/cards/PlaylistCard.tsx:42-48 | The age bucket, which stops at weeks. It is specified by PlaylistCard.TimeAgoNoMonths, PlaylistCard.AgreesWithVideoCardBelowAMonth and PlaylistCard.TimeAgoMonotone. |
| PlaylistCard.FormatTimeAgo | src/components/cards/PlaylistCard.tsx:39-49 | `formatTimeAgo`'s text. It is compared with the video card's by PlaylistCard.AgreesWithVideoCardBelowAMonth. |
| PlaylistCard.TimeAgoNoMonths | src/components/cards/PlaylistCard.tsx:44-48 | There is never a month bucket. Weeks hold exactly from 604800 seconds on, with count ⌊d / 604800⌋ ≥ 1. |
| PlaylistCard.AgreesWithVideoCardBelowAMonth | src/components/cards/PlaylistCard.tsx:44-48 | Below 2592000 seconds the playlist age text equals the video card's. From there on it always differs. |
| PlaylistCard.TimeAgoMonotone | src/components/cards/PlaylistCard.tsx:44-48 | An older update never renders a more recent age. |
| PlaylistCard.VisibilityIcon | src/components/cards/PlaylistCard.tsx:51-55 | The icon map. PlaylistCard.VisibilityMapsDistinguish shows it is total and injective. |
| PlaylistCard.VisibilityLabel | src/components/cards/PlaylistCard.tsx:57-61 | The label map. PlaylistCard.VisibilityMapsDistinguish shows it is total and injective and that every label reads back. |
| PlaylistCard.VisibilityMapsDistinguish | src/components/cards/PlaylistCard.tsx:51-61 | Both maps are total and injective (Globe/Публичный, Link/По ссылке, Lock/Приватный), and every label reads back as its visibility. |
| PlaylistCard.PlaylistHref | src/components/cards/PlaylistCard.tsx:71 | The link shared by the three variants is the ten characters "/playlist/" followed by the slug, and nothing else. |
| PlaylistCard.PlaylistHrefBySlug | src/components/cards/PlaylistCard.tsx:71 | Two playlist links are equal exactly when the slugs are. |
| SearchPage.Search | src/pages/SearchPage.tsx:37-60 | A blank query yields []. Otherwise a video is a result exactly when it is in the list and its lower-cased title or author includes the lower-cased untrimmed query, and, unless the filter is 'all', its category equals the filter. The results are a permutation of the matching videos. Without the 'views'/'newest' sort they are the matching videos in list order, a subsequence of the list. |
| SearchPage.SelectedIsBothFilters | src/pages/SearchPage.tsx:39-46 | The text filter followed by the category filter equals a single filter by both predicates, and with 'all' the text filter alone. |
| SearchPage.UntrimmedQueryNarrows | src/pages/SearchPage.tsx:38-42 | A query with a leading space passes the trim guard but does not match a title that starts with the word, though the trimmed query does. |
| CategoriesPage.EmptyQueryListsAll | src/pages/CategoriesPage.tsx:26-29 | An empty query lists every category in catalogue order. |
| CategoriesPage.Catalogue | src/pages/CategoriesPage.tsx:11-24 | The twelve fixed categories. CategoriesPage.CatalogueStatistics states their number and total count. |
| CategoriesPage.FilteredCategories | src/pages/CategoriesPage.tsx:26-29 | The search filter. It is specified by CategoriesPage.FilterSoundCompleteOrdered and CategoriesPage.EmptyQueryListsAll. |
| CategoriesPage.ShowsNoResults | src/pages/CategoriesPage.tsx:127 | The no-results block. It is specified by CategoriesPage.NoResultsIffNothingMatches. |
| CategoriesPage.TotalCount | src/pages/CategoriesPage.tsx:143 | The `reduce` that sums the counts. It is specified by CategoriesPage.FilteredTotalAtMostTotal and CategoriesPage.CatalogueStatistics. |
| CategoriesPage.FilterSoundCompleteOrdered | src/pages/CategoriesPage.tsx:26-29 | A category is listed exactly when it is in the catalogue and its lower-cased name or description includes the lower-cased query. The list is a subsequence of the catalogue. |
| CategoriesPage.NoResultsIffNothingMatches | src/pages/CategoriesPage.tsx:127 | The no-results block shows exactly when no category matches. |
| CategoriesPage.FilteredTotalAtMostTotal | src/pages/CategoriesPage.tsx:143 | The listed categories never hold more videos than the statistic, which sums the whole catalogue. |
| CategoriesPage.CatalogueStatistics | src/pages/CategoriesPage.tsx:11-24 | The catalogue has 12 categories with 672 videos in total. |
| FilterBar.BadgeRule | src/components/blocks/FilterBar.tsx:137-139 | Filters are active exactly when the badge count is positive or the query is non-empty. The badge reads 0 exactly when only a query is active. |
| FilterBar.HasActiveFilters | src/components/blocks/FilterBar.tsx:79 | `hasActiveFilters`. It is specified by FilterBar.BadgeRule and FilterBar.SummaryShape. |
| FilterBar.BadgeCount | src/components/blocks/FilterBar.tsx:137-141 | The badge number. It is specified by FilterBar.BadgeRule and bounds the summary in FilterBar.SummaryShape. |
| FilterBar.FindSort | src/components/blocks/FilterBar.tsx:80 | The found option is the first whose value equals the current sort, and None means no option has it. |
| FilterBar.SelectedSortOption | src/components/blocks/FilterBar.tsx:80 | `selectedSortOption`, the `find` over the sort options. It is specified by FilterBar.FindSort. |
| FilterBar.SortLabel | src/components/blocks/FilterBar.tsx:151 | The label is the selected option's label when it is non-empty. It is "Сортировка" when no option is selected or the selected label is empty. It is never empty. |
| FilterBar.SortIcon | src/components/blocks/FilterBar.tsx:150 | The icon is the selected option's icon when it is present and non-empty. It is "ArrowUpDown" when no option is selected or its icon is missing or empty. It is never empty. |
| FilterBar.DefaultsRender | src/components/blocks/FilterBar.tsx:47-76 | The default props show no active filter and the relevance option's label and icon. An unknown sort falls back to "Сортировка". |
| FilterBar.ToggleRoundTrip | src/components/blocks/FilterBar.tsx:82-94 | A toggle asks for the opposite of the current selection, and once applied the same toggle asks to undo it. Tag and chip removals ask for false, and clearing the search asks for "". |
| FilterBar.Handle | src/components/blocks/FilterBar.tsx:82-94 | The callback call each control makes. It is specified by FilterBar.ToggleRoundTrip. |
| FilterBar.FindOption | src/components/blocks/FilterBar.tsx:249 | The found option is the first one with the requested id, and None means no option has it. |
| FilterBar.OptionChips | src/components/blocks/FilterBar.tsx:248-276 | Each chip is for a selected id that names a known option, and there are no more chips than selections. |
| FilterBar.ChipsAreKnownSelections | src/components/blocks/FilterBar.tsx:248-276 | The chip ids are exactly the known selected ids, in selection order. |
| FilterBar.SummaryShape | src/components/blocks/FilterBar.tsx:244-289 | The summary is empty without active filters, ends with the quoted query chip when there is a query, and has at most badge-count + 1 chips. |
| FilterBar.Summary | src/components/blocks/FilterBar.tsx:244-289 | The active-filter chips. They are specified by FilterBar.SummaryShape and FilterBar.ChipsAreKnownSelections. |
| FilterBar.ExpanderShown | src/components/blocks/FilterBar.tsx:128 | The expander button exists only when categories or tags may be shown. It is the precondition of FilterBar.FilterPanel.ToggleExpanded. |
| FilterBar.FilterPanel.constructor | src/components/blocks/FilterBar.tsx:77 | The filter section starts collapsed. |
| FilterBar.FilterPanel.ToggleExpanded | src/components/blocks/FilterBar.tsx:128-132 | The filters button exists only when the expander is shown, and it flips the expanded flag. |
| Header.AtMostOneActiveLink | src/components/layout/Header.tsx:54-56 | At most one navigation link is active for any path, and '/trending/x' activates none. |
| Header.NavLinks | src/components/layout/Header.tsx:47-52 | The four navigation links. Header.AtMostOneActiveLink relies on their paths being distinct. |
| Header.IsActivePath | src/components/layout/Header.tsx:54-56 | Exact path equality. It is specified by Header.AtMostOneActiveLink. |
| Header.UserAreaFor | src/components/layout/Header.tsx:124 | The user menu shows exactly when authenticated and a user is present, and it is that user's menu. |
| Header.AuthenticatedWithoutUser | src/components/layout/Header.tsx:252 | Authenticated without a user, the header shows the sign-in links and the mobile studio link together. |
| Header.MobileStudioLink | src/components/layout/Header.tsx:252 | The mobile studio link, shown on authentication alone. It is specified by Header.AuthenticatedWithoutUser. |
| Header.HeaderState.constructor | src/components/layout/Header.tsx:36-37 | The query starts empty and the mobile menu closed. |
| Header.HeaderState.TypeQuery | src/components/layout/Header.tsx:98 | Typing sets the query and leaves the menu flag. |
| Header.HeaderState.ClearQuery | src/components/layout/Header.tsx:106 | The clear button sets the query to "". |
| Header.HeaderState.HandleSearch | src/components/layout/Header.tsx:40-45 | `onSearch` is not called exactly when the query is blank. Otherwise it gets the query with its blank margins removed, which has no whitespace at either end and is its own trim. |
| Header.HeaderState.ToggleMobileMenu | src/components/layout/Header.tsx:224 | The menu button flips the mobile menu flag. |
| Header.HeaderState.FollowMobileLink | src/components/layout/Header.tsx:239 | Following a mobile link closes the menu. |
| RegisterPage.WithField | src/pages/RegisterPage.tsx:29-31 | After the update the named field holds the value and every other field is unchanged. |
| RegisterPage.WithFieldLaws | src/pages/RegisterPage.tsx:29-31 | Updates of different fields commute, the later update of one field wins, and writing a field's own value changes nothing. |
| RegisterPage.RegisterOutcome | src/pages/RegisterPage.tsx:20-27 | Submitting gives the mismatch alert exactly when the passwords differ. Otherwise it registers the record as it stands. |
| RegisterPage.Alert | src/pages/RegisterPage.tsx:22-25 | The alert is raised exactly when the submit does not register, and its text is "Пароли не совпадают". |
| RegisterPage.InputType | src/pages/RegisterPage.tsx:90-115 | A password box (lines 90 and 115) shows its text in clear exactly while its eye button is on. |
| RegisterPage.SubmitChecksOnlyConfirmation | src/pages/RegisterPage.tsx:20-27 | A one-character password registers. An eight-character one whose confirmation differs is refused. |
| RegisterPage.RegisterForm.constructor | src/pages/RegisterPage.tsx:10-18 | All four fields start empty and all three flags false. |
| RegisterPage.RegisterForm.HandleInputChange | src/pages/RegisterPage.tsx:29-31 | Input changes only the named field, and no flag. |
| RegisterPage.RegisterForm.HandleSubmit | src/pages/RegisterPage.tsx:20-27 | It returns early with the alert exactly on a mismatch, otherwise registers the current record. The state does not change. |
| RegisterPage.RegisterForm.ToggleShowPassword | src/pages/RegisterPage.tsx:102 | The button flips its own flag and nothing else, so the box switches between shown and hidden text. |
| RegisterPage.RegisterForm.ToggleShowConfirmPassword | src/pages/RegisterPage.tsx:127 | The button flips its own flag, independently of the other, so its box switches between shown and hidden text. |
| RegisterPage.RegisterForm.SetAcceptTerms | src/pages/RegisterPage.tsx:144 | The checkbox stores its checked state and nothing else. |
| RegisterPage.RegisterForm.SubmitDisabled | src/pages/RegisterPage.tsx:164 | The submit button is disabled exactly while the terms are not accepted. Its partner is RegisterPage.RegisterForm.SetAcceptTerms. |
| VideoGrid.GridColsInjective | src/components/blocks/VideoGrid.tsx:120-126 | The class map is total over 2..6 and gives each column count its own non-empty class. |
| VideoGrid.GridCols | src/components/blocks/VideoGrid.tsx:120-126 | The column-class map. It is specified by VideoGrid.GridColsInjective. |
| VideoGrid.SkeletonView | src/components/blocks/VideoGrid.tsx:33-77 | The loading skeleton. It is specified by VideoGrid.LoadingShowsSkeleton and VideoGrid.DefaultsRender. |
| VideoGrid.Render | src/components/blocks/VideoGrid.tsx:79-143 | The grid's three outcomes. They are specified by VideoGrid.LoadingShowsSkeleton, VideoGrid.EmptyStateRule and VideoGrid.OneCardPerVideo. |
| VideoGrid.LoadingShowsSkeleton | src/components/blocks/VideoGrid.tsx:33-92 | Loading shows columns·2 placeholders even when videos are present: a list for horizontal cards, otherwise the grid's column class. |
| VideoGrid.EmptyStateRule | src/components/blocks/VideoGrid.tsx:94-102 | The empty state shows exactly when not loading and the videos are missing or empty. |
| VideoGrid.OneCardPerVideo | src/components/blocks/VideoGrid.tsx:104-143 | Otherwise there is one card per video, in input order, with variant, showAuthor and showCategory passed through. Horizontal cards come as a list and the others as a grid with the column class. |
| VideoGrid.DefaultsRender | src/components/blocks/VideoGrid.tsx:80-88 | By default the grid has four columns of default cards with authors and without categories, and loading shows 8 placeholders. |
| Text.Trim | src/components/layout/Header.tsx:42 | `trim` yields a slice with only whitespace outside it, no whitespace at either end, and is empty exactly when the input is blank. |
| Text.TrimOfTrimmed | src/components/layout/Header.tsx:43 | Trimming an already trimmed text changes nothing. |
| Text.Lower | src/pages/SearchPage.tsx:40-41 | `toLowerCase`, which keeps the length. Text.LowerIdempotent shows that lower-casing twice is lower-casing once. |
| Text.Contains | src/pages/SearchPage.tsx:40-41 | `includes`, an occurrence at some index. Text.ContainsEmpty shows that every string includes "". |
| Sequences.FilterMembers | src/pages/SearchPage.tsx:39-42 | `filter` keeps an element exactly when it occurs in the input and satisfies the predicate. |
| Sequences.Filter | src/pages/SearchPage.tsx:39-42 | `filter`. It is never longer than its input, keeps only passing elements and takes each at most as often as the input holds it. |
| Sequences.FilterIsSubsequence | src/pages/SearchPage.tsx:39-42 | `filter` keeps the input order. |
| Sequences.FilterFilter | src/pages/SearchPage.tsx:44-46 | Filtering twice is filtering once by the conjunction. |
| Sequences.SortWith | src/pages/SearchPage.tsx:49-54 | Sorting with any comparator only reorders (multiset equality). |

## Left out

- Markup, Tailwind classes (other than the grid column map), icons and styling are not modelled. Neither are router links and params, and the UI kit widgets (Card, Badge, Avatar, DropdownMenu, Skeleton).
- Carousel: the pixel offset that `scrollToIndex` computes and the smooth scrolling are floating-point DOM behaviour, not modelled. So is registering the scroll listener. The flag refresh that follows an index change or a user scroll is the `Scroll` event, carrying the geometry the container reports.
- Carousel: interval timing (`autoPlayInterval`) is not modelled. A tick is an explicit event of a live interval.
- Carousel: props are fixed for the life of a carousel, so effect re-runs on prop changes are not modelled. The header buttons (shown only with a title, disabled by the flags) and the overlay arrows (shown by the flags) are folded into one guard: a click reaches the handler only when navigation is shown and the flag allows it.
- Carousel.WrapNext: the lower bound is stated for a non-negative index only. The controller's index is never negative, as Carousel.StepInvariant shows.
- VideoCard.FormatViews: the `toFixed(1)` digits are floating-point formatting. The contract gives the branch, the suffix and the exact unrounded value (the scaled value times 1,000 or 1,000,000 is the view count), not the rounded text.
- View counts are naturals. Negative or fractional `views_count` values are not modelled.
- Durations are naturals. Negative or fractional `duration_sec`/`totalDuration` values are not modelled.
- Both `formatTimeAgo` functions read the clock and parse dates. They take the elapsed whole seconds as input instead.
- SearchPage: the 'views' sort (`parseFloat` on "2.4M"-style strings) and the 'newest' sort (`localeCompare`) are comparator parameters. `Sequences.SortWith` stands in for the engine's in-place sort as an insertion sort on values, so only the permutation is stated, not the resulting order.
- SearchPage: the page's four state variables are parameters of `SearchPage.Search`. Its popular queries, category counts and result cards are not modelled.
- Text.Lower: covers ASCII and the basic Cyrillic capitals (U+0400–U+042F). Other characters are left unchanged, with no full Unicode case mapping. Strings are sequences of code points, not UTF-16 code units.
- `alert` and `console.log` in the register form are modelled as the `Outcome` value, and are otherwise I/O.
- RegisterPage: `handleInputChange` accepts any key. The model takes the four fields the inputs pass. The browser's `required` and e-mail validation are not modelled.
- FilterBar: controls call optional callbacks (`?.`). `FilterBar.Handle` gives the call a control makes, and when the callback is absent nothing happens. `FilterBar.ApplySelection` stands for a parent that honours the callbacks and is not part of the bar. Chip variants and option counts are display only.
- Header: the current path comes from the router and is a constant of the header state. Logout and navigation are not modelled.
- PlaylistCard: only the formatters, the visibility maps and the link are modelled. The card's other fields are display only.
- ChannelCard (float follower formatting), ProfilePage, VideoPage, LoginPage, Index, CategoryPage and the chip styles are not part of this model.
