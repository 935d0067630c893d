TestResult.DisplayName,TestResult.Outcome,TestResult.Duration,TestResult.ResourceCount,RandomSeed
QuoteBuilder.RemoveItem (well-formedness),Passed,00:00:00.5143502,1197939,0
QuoteUtils.CalculateDependsOnInputsOnly (correctness),Passed,00:00:00.3110832,1450600,0
Products.CatalogIdsUnique (correctness),Passed,00:00:00.2089632,777132,0
QuoteStorage.HistoryStore.NextQuoteNumber (correctness),Passed,00:00:00.2075280,578854,0
Products.GetProductsByTrade (well-formedness),Passed,00:00:00.2007645,219848,0
Products.CategoriesExact (correctness),Passed,00:00:00.1786547,320761,0
QuotePreview.PlanSections (correctness),Passed,00:00:00.1718796,287045,0
QuotePreview.PlanSectionContents (well-formedness),Passed,00:00:00.1629873,261463,0
QuoteStorage.DeleteUndoesSave (correctness),Passed,00:00:00.1520283,389103,0
QuotePreview.PlanSectionContents (correctness),Passed,00:00:00.1474746,266986,0
QuotePreview.SectionBlockPresent (well-formedness),Passed,00:00:00.1466080,225610,0
QuotePreview.NoNotesBlock (correctness),Passed,00:00:00.1459661,388262,0
Products.Categories (well-formedness),Passed,00:00:00.1454636,40724,0
QuotePreview.NoSectionBlock (correctness),Passed,00:00:00.1448388,347581,0
QuotePreview.SectionBlockShownIff (correctness),Passed,00:00:00.1432952,263430,0
QuoteBuilder.AddSameProductTwice (correctness),Passed,00:00:00.1391317,540660,0
QuotePreview.NoLaborBlock (correctness),Passed,00:00:00.1374137,406405,0
QuoteBuilder.Builder.HandleTradeSelect (correctness),Passed,00:00:00.1341913,250088,0
QuotePreview.SectionBlockPresent (correctness),Passed,00:00:00.1325254,306243,0
QuoteBuilder.AddProductMerges (correctness),Passed,00:00:00.1302411,408520,0
QuotePreview.TotalsPlace (correctness),Passed,00:00:00.1233720,275155,0
QuotePreview.NotesShownIff (correctness),Passed,00:00:00.1110316,219809,0
QuotePreview.PlanSections (well-formedness),Passed,00:00:00.1106982,178236,0
ProductCatalog.CatalogProductsNotCustom (correctness),Passed,00:00:00.1063591,231290,0
QuotePreview.TotalsPlace (well-formedness),Passed,00:00:00.1062634,202694,0
QuotePreview.LaborShownIff (correctness),Passed,00:00:00.1042115,221040,0
QuotePreview.NoNotesBlock (well-formedness),Passed,00:00:00.1017279,174295,0
QuoteStorage.Upsert (well-formedness),Passed,00:00:00.1013641,65291,0
QuotePreview.SectionBlockShownIff (well-formedness),Passed,00:00:00.1013558,211834,0
QuoteBuilder.FindByProduct (well-formedness),Passed,00:00:00.1010372,81345,0
QuotePreview.PlanAt (correctness),Passed,00:00:00.0999084,205043,0
QuotePreview.NoSectionBlock (well-formedness),Passed,00:00:00.0997909,207273,0
QuotePreview.PlanEnd (correctness),Passed,00:00:00.0989654,211206,0
QuoteStorage.FindQuote (well-formedness),Passed,00:00:00.0978359,77976,0
Seqs.FilterConcat (correctness),Passed,00:00:00.0977033,462615,0
QuotePreview.PlanAt (well-formedness),Passed,00:00:00.0973958,202002,0
QuotePreview.PlanStart (well-formedness),Passed,00:00:00.0953658,205371,0
ProductCatalog.Catalog.Listed (well-formedness),Passed,00:00:00.0915290,260214,0
QuotePreview.SectionBlocks (well-formedness),Passed,00:00:00.0915268,226999,0
QuoteStorage.UpsertIdempotent (correctness),Passed,00:00:00.0903838,254080,0
Products.ElectricianCategories (correctness),Passed,00:00:00.0897685,231434,0
QuoteStorage.UpsertKeepsIdsUnique (correctness),Passed,00:00:00.0895450,224477,0
QuotePreview.IncludedItems (well-formedness),Passed,00:00:00.0867920,117296,0
QuoteBuilder.Builder.HandleAddProduct (correctness),Passed,00:00:00.0856417,160643,0
QuotePreview.NotesShownIff (well-formedness),Passed,00:00:00.0846202,173963,0
SectionManager.Manager.HandleSaveEdit (correctness),Passed,00:00:00.0836792,369724,0
QuoteBuilder.Builder.HandleUpdateQuote (correctness),Passed,00:00:00.0830328,125638,0
QuotePreview.PlanStart (correctness),Passed,00:00:00.0829971,219364,0
ProductCatalog.EmptyFilterKeepsAll (correctness),Passed,00:00:00.0825229,73630,0
Products.CarpenterRuns1 (correctness),Passed,00:00:00.0818004,162169,0
QuotePreview.VisibleSections (well-formedness),Passed,00:00:00.0811298,235002,0
Products.DistinctCategories (correctness),Passed,00:00:00.0800352,159586,0
ProductCatalog.Catalog.SaveAndClose (correctness),Passed,00:00:00.0798301,229583,0
QuoteBuilder.UpdateQuoteCompose (correctness),Passed,00:00:00.0796514,152225,0
QuoteBuilder.Builder.HandleRemoveItem (well-formedness),Passed,00:00:00.0760671,95220,0
CustomProducts.SaveKeepsIdsUnique (correctness),Passed,00:00:00.0752239,147939,0
Products.CarpenterCategories (correctness),Passed,00:00:00.0745159,266514,0
ProductCatalog.Catalog.HandleSaveCustomProduct (correctness),Passed,00:00:00.0735848,129997,0
Products.CarpenterRuns3 (correctness),Passed,00:00:00.0729473,256157,0
QuotePreview.ClientParty (well-formedness),Passed,00:00:00.0702793,56726,0
Products.ElectricianRuns2 (correctness),Passed,00:00:00.0695725,147344,0
Products.CategoriesExact (well-formedness),Passed,00:00:00.0690158,214688,0
CustomProducts.FindProduct (well-formedness),Passed,00:00:00.0686015,68852,0
ProductCatalog.CatalogProductsNotCustom (well-formedness),Passed,00:00:00.0682259,180185,0
QuoteUtils.EmptyQuoteCalculatesToZero (well-formedness),Passed,00:00:00.0681819,95822,0
QuoteBuilder.UpdateQuantityItems (well-formedness),Passed,00:00:00.0680868,83897,0
QuoteBuilder.Builder.LinesConsistent (well-formedness),Passed,00:00:00.0676643,37766,0
QuotePreview.NoLaborBlock (well-formedness),Passed,00:00:00.0675486,174141,0
QuoteBuilder.Builder.HandleTradeSelect (well-formedness),Passed,00:00:00.0668906,97598,0
Products.CarpenterRuns (correctness),Passed,00:00:00.0661835,225788,0
QuoteBuilder.AddProduct (well-formedness),Passed,00:00:00.0655189,119195,0
QuotePreview.TailLayout (correctness),Passed,00:00:00.0653206,128004,0
QuoteStorage.HistoryStore.DuplicateQuote (well-formedness),Passed,00:00:00.0650938,113463,0
CustomProducts.SaveProduct (well-formedness),Passed,00:00:00.0650918,53452,0
Seqs.FilterIsSubsequence (correctness),Passed,00:00:00.0649673,253072,0
QuoteUtils.SumTotalsAppend (correctness),Passed,00:00:00.0647491,272779,0
QuotePreview.PlanEnd (well-formedness),Passed,00:00:00.0646021,173332,0
Products.ElectricianRuns (correctness),Passed,00:00:00.0639833,163386,0
QuotePreview.LaborShownIff (well-formedness),Passed,00:00:00.0638720,173963,0
Text.AfterLastOf (correctness),Passed,00:00:00.0635303,77032,0
QuoteBuilder.Builder.HandleUpdateQuantity (correctness),Passed,00:00:00.0625253,107204,0
QuoteStorage.DuplicateKeepsAmounts (correctness),Passed,00:00:00.0620035,119747,0
Products.ElectricianRuns1 (correctness),Passed,00:00:00.0616437,165175,0
ProductCatalog.Catalog.HandleSaveCustomProduct (well-formedness),Passed,00:00:00.0613207,102304,0
QuoteBuilder.AddProductItems (well-formedness),Passed,00:00:00.0608722,110961,0
QuoteStorage.UpsertReplaces (correctness),Passed,00:00:00.0607888,109514,0
QuoteStorage.WithoutQuote (well-formedness),Passed,00:00:00.0606310,119821,0
QuoteUtils.EmptyQuoteCalculatesToZero (correctness),Passed,00:00:00.0605911,105042,0
ProductCatalog.RequestedQuantity (well-formedness),Passed,00:00:00.0602833,15358,0
Text.Trim (well-formedness),Passed,00:00:00.0599956,246121,0
Seqs.SubsequenceSnoc (correctness),Passed,00:00:00.0598638,25896,0
QuotePreview.SumTotalsSplit (correctness),Passed,00:00:00.0590575,90162,0
QuotePreview.SectionBlockOf (well-formedness),Passed,00:00:00.0586754,181404,0
QuoteBuilder.UpdateQuote (well-formedness),Passed,00:00:00.0586159,202659,0
Products.CatalogIdsUnique (well-formedness),Passed,00:00:00.0583894,177104,0
QuoteStorage.WithoutAbsentQuote (well-formedness),Passed,00:00:00.0581823,50877,0
ProductCatalog.FilteredProducts (well-formedness),Passed,00:00:00.0580492,102983,0
QuotePreview.Head (well-formedness),Passed,00:00:00.0569762,107139,0
QuoteStorage.HistoryStore.DuplicateQuote (correctness),Passed,00:00:00.0560633,125820,0
QuoteStorage.DuplicateKeepsAmounts (well-formedness),Passed,00:00:00.0559661,81215,0
QuotePreview.Siret (well-formedness),Passed,00:00:00.0550730,24161,0
SectionManager.Manager.HandleAddSection (well-formedness),Passed,00:00:00.0550566,38013,0
QuoteStorage.WithoutAbsentQuote (correctness),Passed,00:00:00.0550204,67623,0
Seqs.SubsequenceDropLast (correctness),Passed,00:00:00.0549346,28098,0
QuotePreview.CompanyParty (well-formedness),Passed,00:00:00.0547893,41303,0
QuoteStorage.HistoryStore.DeleteQuoteFromHistory (well-formedness),Passed,00:00:00.0535328,58489,0
QuoteBuilder.UpdateQuantityUnknownId (well-formedness),Passed,00:00:00.0531932,45219,0
Text.AllDigits (well-formedness),Passed,00:00:00.0531557,10589,0
QuoteItemsList.PlusThenUpdate (correctness),Passed,00:00:00.0518934,83577,0
QuoteStorage.DuplicateFreshIds (correctness),Passed,00:00:00.0518305,159247,0
Products.CarpenterCategoryList (correctness),Passed,00:00:00.0517851,176358,0
Text.Pow10 (well-formedness),Passed,00:00:00.0515685,8602,0
QuoteUtils.WorkedExample (correctness),Passed,00:00:00.0503570,88038,0
Text.IsBlank (well-formedness),Passed,00:00:00.0502893,12181,0
QuoteUtils.CalculateBounds (correctness),Passed,00:00:00.0502775,204504,0
Products.ElectricianCategoryList (correctness),Passed,00:00:00.0499222,172090,0
QuoteUtils.CreateEmptyQuote (well-formedness),Passed,00:00:00.0496504,96721,0
SectionManager.Manager._ctor (correctness),Passed,00:00:00.0486258,18339,0
QuoteUtils.CalculateQuote (well-formedness),Passed,00:00:00.0484730,178915,0
QuoteBuilder.Builder.HandleRemoveItem (correctness),Passed,00:00:00.0473843,125785,0
ProductCatalog.CustomProductOf (well-formedness),Passed,00:00:00.0472615,119066,0
QuoteBuilder.Builder.HandleAddProduct (well-formedness),Passed,00:00:00.0467924,119226,0
QuotePreview.SectionItems (well-formedness),Passed,00:00:00.0465351,81804,0
CustomProducts.SaveKeepsIdsUnique (well-formedness),Passed,00:00:00.0452594,55261,0
QuoteUtils.GenerateQuoteNumber (well-formedness),Passed,00:00:00.0450358,56108,0
Products.CarpenterRuns2 (correctness),Passed,00:00:00.0449659,153570,0
QuoteBuilder.AddProductAppends (well-formedness),Passed,00:00:00.0449423,111070,0
QuoteItemsList.PlusThenUpdate (well-formedness),Passed,00:00:00.0442719,51008,0
CustomProducts.SaveIdempotent (correctness),Passed,00:00:00.0441717,135682,0
QuotePreview.Tail (well-formedness),Passed,00:00:00.0439984,132278,0
CustomProducts.OfTrade (well-formedness),Passed,00:00:00.0435863,121981,0
ProductCatalog.Catalog.HandleDeleteCustomProduct (correctness),Passed,00:00:00.0430300,104355,0
QuoteBuilder.Builder.HandleReset (correctness),Passed,00:00:00.0430039,44865,0
QuotePreview.Rows (well-formedness),Passed,00:00:00.0429800,69465,0
QuotePreview.ExcludedItemStillCounted (correctness),Passed,00:00:00.0419990,115120,0
Seqs.DistinctIsSubsequence (correctness),Passed,00:00:00.0416285,174120,0
CustomProducts.ProductStore.GetCustomProductsByTrade (correctness),Passed,00:00:00.0410347,76652,0
SectionManager.Manager.HandleAddSection (correctness),Passed,00:00:00.0407264,110625,0
QuotePreview.HasRowsIff (well-formedness),Passed,00:00:00.0406664,55010,0
QuotePreview.SectionShownIff (correctness),Passed,00:00:00.0404696,115826,0
QuoteStorage.HistoryStore.SaveQuoteToHistory (correctness),Passed,00:00:00.0402873,92479,0
QuotePreview.SectionItemsInOrder (correctness),Passed,00:00:00.0400650,108912,0
QuoteBuilder.AddProductMerges (well-formedness),Passed,00:00:00.0391268,113066,0
QuoteBuilder.Builder.HandleUpdateQuote (well-formedness),Passed,00:00:00.0390929,96843,0
Products.ElectricianRuns3 (correctness),Passed,00:00:00.0383357,130547,0
QuoteBuilder.Builder.Calculations (well-formedness),Passed,00:00:00.0382435,57091,0
Seqs.FindIndex (well-formedness),Passed,00:00:00.0382210,116756,0
CustomProducts.WithoutProduct (well-formedness),Passed,00:00:00.0376660,114217,0
QuoteBuilder.UpdateQuantity (well-formedness),Passed,00:00:00.0374566,82205,0
QuoteBuilder.UpdateQuoteTotal (correctness),Passed,00:00:00.0373276,104960,0
QuoteStorage.HistoryStore.DeleteQuoteFromHistory (correctness),Passed,00:00:00.0373057,84135,0
ProductCatalog.Catalog.SaveAndClose (well-formedness),Passed,00:00:00.0372339,72512,0
QuoteBuilder.Builder.HandleUpdateQuantity (well-formedness),Passed,00:00:00.0370321,86737,0
Text.TrimStart (well-formedness),Passed,00:00:00.0370028,101385,0
QuoteStorage.DuplicateFreshIds (well-formedness),Passed,00:00:00.0368925,96923,0
Seqs.DistinctAppendSeen (correctness),Passed,00:00:00.0366073,193257,0
QuoteBuilder.FindByProductAt (correctness),Passed,00:00:00.0355389,55857,0
QuoteBuilder.FindByProductAt (well-formedness),Passed,00:00:00.0353820,45792,0
QuoteUtils.CalculateIgnoresIncluded (correctness),Passed,00:00:00.0353340,90273,0
Text.TrimEnd (well-formedness),Passed,00:00:00.0349276,144840,0
QuoteBuilder.AddProductAppends (correctness),Passed,00:00:00.0347227,99481,0
QuoteBuilder.UpdateQuoteIdempotent (correctness),Passed,00:00:00.0346885,103296,0
ProductCatalog.Catalog.HandleAdd (well-formedness),Passed,00:00:00.0336581,46059,0
QuotePreview.TailLayout (well-formedness),Passed,00:00:00.0336067,91138,0
QuotePreview.HasRowsIff (correctness),Passed,00:00:00.0334882,97901,0
ProductCatalog.SavedProductIsCustom (correctness),Passed,00:00:00.0332862,73470,0
QuoteStorage.Duplicated (well-formedness),Passed,00:00:00.0331377,91050,0
QuoteUtils.TtcAtLeastHt (correctness),Passed,00:00:00.0331035,91760,0
QuoteUtils.SerialPartOfFormat (correctness),Passed,00:00:00.0329754,106441,0
QuoteUtils.WorkedExampleWithDiscount (correctness),Passed,00:00:00.0329424,75603,0
Seqs.FilterAll (correctness),Passed,00:00:00.0319596,111935,0
QuotePreview.SubtotalProductsCountsExcluded (correctness),Passed,00:00:00.0319341,80976,0
Seqs.DistinctAppendRun (correctness),Passed,00:00:00.0314601,101462,0
SectionManager.Manager.HandleSaveEdit (well-formedness),Passed,00:00:00.0309270,53887,0
Seqs.FilterMultiset (correctness),Passed,00:00:00.0302642,79114,0
QuoteUtils.FormatQuoteNumber (well-formedness),Passed,00:00:00.0300329,78519,0
ProductCatalog.FilteredInOrder (correctness),Passed,00:00:00.0296962,67232,0
QuoteBuilder.AddSameProductTwice (well-formedness),Passed,00:00:00.0296881,79735,0
Text.TrimEmptyIffBlank (correctness),Passed,00:00:00.0294782,90696,0
ProductCatalog.Catalog.HandleDeleteCustomProduct (well-formedness),Passed,00:00:00.0294116,72655,0
QuoteBuilder.UpdateQuantityOfUniqueLine (well-formedness),Passed,00:00:00.0293806,59111,0
ProductCatalog.Catalog.HandleAdd (correctness),Passed,00:00:00.0290684,85401,0
CustomProducts.ProductStore.SaveCustomProduct (correctness),Passed,00:00:00.0288969,76038,0
Products.DistinctCategories (well-formedness),Passed,00:00:00.0285817,52388,0
QuoteUtils.SumTotalsOfTotals (correctness),Passed,00:00:00.0283786,79158,0
QuotePreview.SectionShownIff (well-formedness),Passed,00:00:00.0277530,72921,0
Seqs.FilterCompose (correctness),Passed,00:00:00.0271793,86912,0
QuoteStorage.UpsertPrepends (correctness),Passed,00:00:00.0268332,63657,0
QuoteStorage.UpsertKeepsIdsUnique (well-formedness),Passed,00:00:00.0267547,70484,0
Text.Contains (well-formedness),Passed,00:00:00.0264110,82715,0
CustomProducts.ProductStore.DeleteCustomProduct (correctness),Passed,00:00:00.0262083,63697,0
QuoteStorage.UpsertPrepends (well-formedness),Passed,00:00:00.0255364,50170,0
QuoteBuilder.UpdateQuantityOfUniqueLine (correctness),Passed,00:00:00.0253758,67786,0
Seqs.Filter (well-formedness),Passed,00:00:00.0252503,68840,0
CustomProducts.OfTradeAppend (correctness),Passed,00:00:00.0248827,72837,0
Text.ParseZeroPadded (correctness),Passed,00:00:00.0246882,56741,0
QuoteUtils.SerialPartOfFormat (well-formedness),Passed,00:00:00.0246823,52894,0
CustomProducts.SaveReplaces (correctness),Passed,00:00:00.0245861,70321,0
QuoteItemsList.Rows (well-formedness),Passed,00:00:00.0243138,62959,0
QuotePreview.SectionTotalOfIncluded (correctness),Passed,00:00:00.0241453,65715,0
Text.ZeroPadded (well-formedness),Passed,00:00:00.0238426,41295,0
Seqs.DistinctMembers (correctness),Passed,00:00:00.0237238,73369,0
QuoteUtils.ZeroBaseCalculatesToZero (correctness),Passed,00:00:00.0232700,64921,0
QuotePreview.RowOf (well-formedness),Passed,00:00:00.0232348,50352,0
Text.ParseDecimalOfDecimal (correctness),Passed,00:00:00.0231772,67513,0
QuoteBuilder.UpdateQuantityUnknownId (correctness),Passed,00:00:00.0228544,53575,0
QuoteStorage.HistoryStore.NextQuoteNumber (well-formedness),Passed,00:00:00.0226580,59079,0
QuoteItemsList.MinusThenUpdate (correctness),Passed,00:00:00.0224986,57345,0
QuoteStorage.HistoryStore.SaveQuoteToHistory (well-formedness),Passed,00:00:00.0224103,57941,0
CustomProducts.WithoutAbsentProduct (correctness),Passed,00:00:00.0221937,60173,0
QuoteStorage.UpsertReplaces (well-formedness),Passed,00:00:00.0219983,52853,0
CustomProducts.ProductStore.GetCustomProductsByTrade (well-formedness),Passed,00:00:00.0214994,54488,0
QuoteBuilder.Builder._ctor (correctness),Passed,00:00:00.0210037,48015,0
Text.ParseLeadingZeros (correctness),Passed,00:00:00.0206833,49559,0
QuoteBuilder.WithQuantity (well-formedness),Passed,00:00:00.0201926,33349,0
ProductCatalog.SavedProductIsCustom (well-formedness),Passed,00:00:00.0201633,54753,0
CustomProducts.SaveAppends (well-formedness),Passed,00:00:00.0194267,43694,0
CustomProducts.ProductStore.SaveCustomProduct (well-formedness),Passed,00:00:00.0194066,50426,0
QuoteItemsList.MinusThenUpdate (well-formedness),Passed,00:00:00.0193798,50875,0
QuotePreview.TotalLines (well-formedness),Passed,00:00:00.0193316,51191,0
QuoteUtils.CalculateIgnoresIncluded (well-formedness),Passed,00:00:00.0192037,44233,0
CustomProducts.ProductStore.DeleteCustomProduct (well-formedness),Passed,00:00:00.0191714,49967,0
ProductCatalog.Catalog.OpenNewProduct (correctness),Passed,00:00:00.0189867,56332,0
ProductCatalog.Catalog.OpenEditProduct (correctness),Passed,00:00:00.0187804,54243,0
CustomProducts.SaveAppends (correctness),Passed,00:00:00.0186842,51287,0
ProductCatalog.Catalog._ctor (correctness),Passed,00:00:00.0186308,55239,0
Text.ParseZeroPadded (well-formedness),Passed,00:00:00.0185440,33983,0
ProductCatalog.Catalog.HandleQuantityChange (correctness),Passed,00:00:00.0179447,49754,0
QuoteUtils.SumTotals (well-formedness),Passed,00:00:00.0178710,31751,0
Text.AfterLast (well-formedness),Passed,00:00:00.0173609,49975,0
ProductCatalog.Catalog.OpenEditProduct (well-formedness),Passed,00:00:00.0169883,39563,0
QuoteUtils.Totals (well-formedness),Passed,00:00:00.0167077,40818,0
CustomProducts.SaveReplaces (well-formedness),Passed,00:00:00.0165306,46018,0
Text.Decimal (well-formedness),Passed,00:00:00.0162063,46206,0
CustomProducts.WithoutAbsentProduct (well-formedness),Passed,00:00:00.0161656,43459,0
QuoteUtils.MonthIsTwoDigits (correctness),Passed,00:00:00.0161017,46841,0
ProductCatalog.Catalog.HandleQuantityChange (well-formedness),Passed,00:00:00.0159122,35766,0
Seqs.FilterAll (well-formedness),Passed,00:00:00.0156039,24284,0
QuoteBuilder.NewItem (well-formedness),Passed,00:00:00.0153429,35226,0
Text.PadStart (well-formedness),Passed,00:00:00.0153409,36912,0
Text.Lower (well-formedness),Passed,00:00:00.0151423,38833,0
QuoteUtils.NonNegativeInputs (well-formedness),Passed,00:00:00.0150567,27179,0
QuoteUtils.FormatQuoteNumberInjective (correctness),Passed,00:00:00.0147389,38864,0
Seqs.IsSubsequence (well-formedness),Passed,00:00:00.0145002,12917,0
ProductCatalog.Catalog.OpenNewProduct (well-formedness),Passed,00:00:00.0141765,42426,0
QuoteUtils.MonthIsTwoDigits (well-formedness),Passed,00:00:00.0137413,31783,0
SectionManager.Manager.HandleStartEditing (correctness),Passed,00:00:00.0135880,26891,0
SectionManager.Manager.HandleStartEditing (well-formedness),Passed,00:00:00.0135172,19499,0
Text.TrimOfTrimmed (correctness),Passed,00:00:00.0134487,38421,0
Text.ParseDecimalOfDecimal (well-formedness),Passed,00:00:00.0127048,20875,0
Text.ParseZeros (correctness),Passed,00:00:00.0122497,25689,0
Text.DecimalLengthBelow (correctness),Passed,00:00:00.0122378,51058,0
QuoteItemsList.RowTotalIsStored (correctness),Passed,00:00:00.0122145,31482,0
QuoteStorage.UniqueQuoteIds (well-formedness),Passed,00:00:00.0121342,20512,0
Text.ParseDecimal (well-formedness),Passed,00:00:00.0121086,19615,0
QuoteBuilder.Builder.Valid (well-formedness),Passed,00:00:00.0120866,12427,0
QuoteItemsList.RowOf (well-formedness),Passed,00:00:00.0120200,24575,0
Seqs.SubsequenceExtend (correctness),Passed,00:00:00.0120104,20761,0
Text.ParseLeadingZeros (well-formedness),Passed,00:00:00.0110756,18209,0
Text.TrimIdempotent (correctness),Passed,00:00:00.0105365,29993,0
ProductCatalog.NameBlankIff (correctness),Passed,00:00:00.0104543,25151,0
QuotePreview.Locality (well-formedness),Passed,00:00:00.0103971,14797,0
QuoteTypes.ItemsConsistent (well-formedness),Passed,00:00:00.0102912,18762,0
SectionManager.Manager.HandleDeleteSection (well-formedness),Passed,00:00:00.0100775,11833,0
Seqs.Distinct (well-formedness),Passed,00:00:00.0097124,20458,0
SectionManager.Manager.HandleDeleteSection (correctness),Passed,00:00:00.0094863,13022,0
Text.TrimOfTrimmed (well-formedness),Passed,00:00:00.0084722,21360,0
Seqs.DistinctSnoc (correctness),Passed,00:00:00.0083097,20582,0
QuoteUtils.RandomSerial (well-formedness),Passed,00:00:00.0081926,6118,0
Text.IsTrimOf (well-formedness),Passed,00:00:00.0080509,18368,0
ProductCatalog.ContainsEmpty (correctness),Passed,00:00:00.0079463,16882,0
QuoteItemsList.TypedRequest (well-formedness),Passed,00:00:00.0078981,11772,0
Seqs.DistinctAppendRun (well-formedness),Passed,00:00:00.0078975,15412,0
Seqs.DistinctMembers (well-formedness),Passed,00:00:00.0077006,19980,0
CustomProducts.ProductStore._ctor (correctness),Passed,00:00:00.0077002,11853,0
CustomProducts.ProductStore.GetCustomProducts (correctness),Passed,00:00:00.0075976,10548,0
Text.ParseZeros (well-formedness),Passed,00:00:00.0075308,13739,0
Text.DigitChar (well-formedness),Passed,00:00:00.0075229,9128,0
QuoteStorage.HistoryStore._ctor (correctness),Passed,00:00:00.0074869,18085,0
QuoteTypes.UniqueItemIds (well-formedness),Passed,00:00:00.0074336,16812,0
QuoteStorage.HistoryStore.GetAllQuotes (correctness),Passed,00:00:00.0071176,10548,0
QuoteItemsList.TypedRequestHasNoFloor (correctness),Passed,00:00:00.0070651,7849,0
QuotePreview.Shown (well-formedness),Passed,00:00:00.0067964,10218,0
QuoteItemsList.PlusRequest (well-formedness),Passed,00:00:00.0066756,3288,0
Seqs.DistinctAppendSeen (well-formedness),Passed,00:00:00.0065848,14894,0
CustomProducts.UniqueProductIds (well-formedness),Passed,00:00:00.0065031,16088,0
Text.StartsWith (well-formedness),Passed,00:00:00.0064628,7387,0
Text.OccursAt (well-formedness),Passed,00:00:00.0058059,10347,0
QuoteItemsList.PlusUndoesMinus (correctness),Passed,00:00:00.0057111,5409,0
Text.LowerChar (well-formedness),Passed,00:00:00.0056974,9973,0
QuoteBuilder.OverrideGetOr (correctness),Passed,00:00:00.0056090,9043,0
Seqs.SubsequenceDropLast (well-formedness),Passed,00:00:00.0054085,8613,0
Seqs.ConcatAt (correctness),Passed,00:00:00.0053389,8311,0
Seqs.ConcatAt (well-formedness),Passed,00:00:00.0051586,8430,0
QuoteItemsList.MinusRequest (well-formedness),Passed,00:00:00.0051029,6341,0
QuoteItemsList.MinusUndoesPlus (correctness),Passed,00:00:00.0043342,5589,0
QuoteItemsList.MinusLowers (correctness),Passed,00:00:00.0042264,4963,0
