# Block-matching registration configuration and 1-D FFT direction, in Dafny

This project models the visible core of two ITKUltrasound filters.

- `itk::BlockMatching::ImageRegistrationMethod` is deformable registration by block matching. Blocks are fixed-radius neighborhoods on a grid in the fixed image. An image of search regions in the moving image is the filter's input, and it says where each block is searched. The filter writes a displacement image whose information (origin, spacing, direction, region) is copied from the search-region image. The model has:
  - the filter's configuration as a class: fixed and moving images, metric image filter, displacement calculator, streaming flag, block radius, search-region input and modification time;
  - the region algebra its header documents, as pure functions over N-dimensional integer regions (`regions.dfy`): block extent `2*radius[i]+1`, blocks centred on a pixel, dilation of a search region by the block radius, containment.
- `itk::Forward1DFFTImageFilter` has one visible piece of state: the direction along which the transform runs. Its setter clamps the value into `[0, ImageDimension-1]`.

Files:
- `itk_types.dfy` holds the 32-bit `unsigned int` and `Option`, which stands for a pointer that may be null.
- `regions.dfy` holds module `ImageRegions`.
- `block_matching.dfy` holds module `BlockMatching`.
- `forward_fft.dfy` holds module `Forward1DFFT`.

The setters follow ITK's macro conventions, which are defined in the ITK framework rather than in these headers:
- `itkSetMacro`, `itkSetObjectMacro` and `SetInput` store the value, and call `Modified()` only when the value changes.
- `itkSetClampMacro` clamps against the lower bound first, then the upper bound. It also calls `Modified()` only on a change.
- `itkBooleanMacro` makes `On`/`Off` call the setter with `true`/`false`.
- `Modified()` is modelled as a modification-time counter that goes up by one.
- `SetRadius` (a per-axis vector) calls `Modified()` unconditionally, as its body does.

The header says the contributing region of the moving image is the search region dilated by the block radius. `ImageRegions.ContributingRegionIsDilation` proves this in index space (both directions) for a non-empty search region, under the assumption that the region algebra is in moving-image index units (see "## Left out"): a pixel is in the dilation if and only if some block centred in the search region contains it. For an empty search region, `ImageRegions.EmptySearchRegionDilation` shows the rule over-approximates. No block centre exists, yet the dilation by a positive radius is non-empty.

## Model

| member | source | states |
|---|---|---|
| `ImageRegions.InBlockIffWithinRadius` | include/itkBlockMatchingImageRegistrationMethod.h:129-132 | a pixel lies in the block centred at c exactly when it is within radius[i] of c on every axis i |
| `ImageRegions.BlockContainsCenter` | include/itkBlockMatchingImageRegistrationMethod.h:153-156 | every block contains the centre pixel that is translated over the search region |
| `ImageRegions.BlockPixelCount` | include/itkBlockMatchingImageRegistrationMethod.h:129-132 | with extents 2*radius[i]+1, a block's pixel count is odd and at least 1, and it is 1 (a single-pixel block) if and only if the radius is zero on every axis |
| `ImageRegions.BlockExtent` | include/itkBlockMatchingImageRegistrationMethod.h:129-132 | the block extent on each axis is odd, and its half (rounded down) is that axis's radius |
| `ImageRegions.BlockIsDilatedPixel` | include/itkBlockMatchingImageRegistrationMethod.h:129-132 | a block is its centre pixel dilated by the radius, so blocks and contributing regions obey one rule |
| `ImageRegions.DilateCovers` | include/itkBlockMatchingImageRegistrationMethod.h:157-159 | the dilated search region contains the search region |
| `ImageRegions.DilateByZero` | include/itkBlockMatchingImageRegistrationMethod.h:157-159 | dilating by the all-zero radius gives back the same region |
| `ImageRegions.BlockInsideDilation` | include/itkBlockMatchingImageRegistrationMethod.h:153-159 | every block centred inside the search region lies inside the dilated search region |
| `ImageRegions.ContributingRegionIsDilation` | include/itkBlockMatchingImageRegistrationMethod.h:153-159 | for a non-empty search region, a pixel is in the dilation if and only if some block centred in the search region contains it |
| `ImageRegions.EmptySearchRegionDilation` | include/itkBlockMatchingImageRegistrationMethod.h:153-159 | an empty search region has no block centre, yet its dilation by a positive radius is non-empty |
| `BlockMatching.ImageRegistrationMethod.OutputInformation` | include/itkBlockMatchingImageRegistrationMethod.h:25-27 | the output displacement image's information comes from the installed search-region input: its largest possible region has one grid site for each search region, and no other sites |
| `BlockMatching.ImageRegistrationMethod.constructor` | include/itkBlockMatchingImageRegistrationMethod.h:115-124 | a new filter has no images or metric filter, the maximum-pixel displacement calculator, and streaming OFF |
| `BlockMatching.ImageRegistrationMethod.SetFixedImage` | include/itkBlockMatchingImageRegistrationMethod.h:101-102 | stores the fixed image, changes no other setting, and leaves the output information unchanged |
| `BlockMatching.ImageRegistrationMethod.GetFixedImage` | include/itkBlockMatchingImageRegistrationMethod.h:103-104 | returns the stored fixed image |
| `BlockMatching.ImageRegistrationMethod.SetMovingImage` | include/itkBlockMatchingImageRegistrationMethod.h:106-107 | stores the moving image, changes no other setting, and leaves the output information unchanged |
| `BlockMatching.ImageRegistrationMethod.GetMovingImage` | include/itkBlockMatchingImageRegistrationMethod.h:108-109 | returns the stored moving image |
| `BlockMatching.ImageRegistrationMethod.SetMetricImageFilter` | include/itkBlockMatchingImageRegistrationMethod.h:111-112 | stores the metric filter, marks the filter modified only on a change, and changes nothing else, the output information included |
| `BlockMatching.ImageRegistrationMethod.GetMetricImageFilter` | include/itkBlockMatchingImageRegistrationMethod.h:113 | returns the stored metric filter |
| `BlockMatching.ImageRegistrationMethod.SetMetricImageToDisplacementCalculator` | include/itkBlockMatchingImageRegistrationMethod.h:115-118 | stores the calculator, marks the filter modified only on a change, and changes nothing else, the output information included |
| `BlockMatching.ImageRegistrationMethod.GetMetricImageToDisplacementCalculator` | include/itkBlockMatchingImageRegistrationMethod.h:119-120 | returns the stored calculator |
| `BlockMatching.ImageRegistrationMethod.SetUseStreaming` | include/itkBlockMatchingImageRegistrationMethod.h:122-125 | sets only the streaming flag, marks the filter modified exactly when the flag changes, and leaves the output information unchanged |
| `BlockMatching.ImageRegistrationMethod.GetUseStreaming` | include/itkBlockMatchingImageRegistrationMethod.h:126 | returns the last streaming flag set |
| `BlockMatching.ImageRegistrationMethod.UseStreamingOn` | include/itkBlockMatchingImageRegistrationMethod.h:127 | turns streaming on and changes nothing else, the output information included |
| `BlockMatching.ImageRegistrationMethod.UseStreamingOff` | include/itkBlockMatchingImageRegistrationMethod.h:127 | turns streaming off and changes nothing else, the output information included |
| `BlockMatching.ImageRegistrationMethod.SetRadius` | include/itkBlockMatchingImageRegistrationMethod.h:134-138 | stores exactly the given per-axis radius, always marks the filter modified, and changes nothing else; the output information does not depend on the radius |
| `BlockMatching.ImageRegistrationMethod.SetRadiusUniform` | include/itkBlockMatchingImageRegistrationMethod.h:139-145 | sets every axis of the radius to the scalar, so every block has extent 2*rad+1 on every axis; the output information is unchanged |
| `BlockMatching.ImageRegistrationMethod.GetRadius` | include/itkBlockMatchingImageRegistrationMethod.h:146 | returns the stored radius, which has one entry per image axis |
| `BlockMatching.ImageRegistrationMethod.SetSearchRegionImage` | include/itkBlockMatchingImageRegistrationMethod.h:160-163 | installs the search-region image as the filter's input, after which the output information is that image's information; marks the filter modified only when the input changes, and changes no other setting |
| `BlockMatching.ImageRegistrationMethod.ContributingRegion` | include/itkBlockMatchingImageRegistrationMethod.h:153-159 | a site's contributing moving-image region is its search region dilated by the block radius, so it covers the search region and every block centred in it |
| `Forward1DFFT.ClampDirection` | include/itkForward1DFFTImageFilter.h:66 | the stored direction is at most ImageDimension-1; an in-range request is kept unchanged; a request above the range becomes ImageDimension-1 |
| `Forward1DFFT.ClampDirectionIdempotent` | include/itkForward1DFFTImageFilter.h:66 | clamping a clamped direction changes nothing |
| `Forward1DFFT.Forward1DFFTImageFilter.constructor` | include/itkForward1DFFTImageFilter.h:78-80 | a new filter's direction lies in [0, ImageDimension-1] |
| `Forward1DFFT.Forward1DFFTImageFilter.SetDirection` | include/itkForward1DFFTImageFilter.h:65-66 | stores the clamped direction, keeps it in range, and marks the filter modified only on a change, so setting the stored direction again is a no-op |
| `Forward1DFFT.Forward1DFFTImageFilter.GetDirection` | include/itkForward1DFFTImageFilter.h:62-63 | returns the stored direction, which is in [0, ImageDimension-1] |
| `Forward1DFFT.SetDirectionTwice` | include/itkForward1DFFTImageFilter.h:66 | setting a direction twice leaves the same direction and the same modification time as setting it once: modified once exactly when the clamped value differs from the old direction |

## Left out

- `GenerateOutputInformation`, `GenerateInputRequestedRegion`, `EnlargeOutputRequestedRegion`, `Initialize` and `GenerateData` are not part of this model. Their bodies are in `itkBlockMatchingImageRegistrationMethod.txx`, which is not part of this model. So the model has no grid traversal, no block extraction, no streaming tiling and no sentinel handling. The output-information rule and the contributing-region rule are modelled from the header's documentation only.
- The metric image filter and the displacement calculator are external classes. They are modelled as opaque handles; only the documented default calculator is named.
- Fixed, moving and search-region images are values compared by equality. The model does not capture C++ pointer identity or reference counting.
- The fixed, moving and search-region images are taken to share one dimension with the radius. In C++ their types are separate template parameters.
- The region algebra is in moving-image index units. The block radius, a fixed-image size, is counted in moving-image pixels. A block centre may sit on every pixel of the search region, which assumes the metric-image spacing equals the moving image's pixel spacing. Conversion between the fixed, metric and moving grids is not modelled.
- Index and size components are unbounded integers. The model does not capture overflow of C++ `long` or `unsigned long` during dilation.
- `BlockMatching.ImageRegistrationMethod.SetFixedImage`: the body is in `itkBlockMatchingImageRegistrationMethod.txx`, which this model does not cover, so the contract says only that the modification time does not go back, not exactly when it advances.
- `BlockMatching.ImageRegistrationMethod.SetMovingImage`: the body is in `itkBlockMatchingImageRegistrationMethod.txx`, which this model does not cover, so the contract says only that the modification time does not go back, not exactly when it advances.
- `BlockMatching.ImageRegistrationMethod.constructor`: the constructor body is in `itkBlockMatchingImageRegistrationMethod.txx`, which this model does not cover. The contract states the documented defaults only, not the initial radius or modification time.
- `Forward1DFFT.Forward1DFFTImageFilter.constructor`: the constructor body is in `itkForward1DFFTImageFilter.hxx`, which this model does not cover. The contract states that the direction is in range, not which value it has.
- The forward FFT itself is floating-point complex numerics from a factory-selected implementation, so it is left out. So are the object factory `New` and the filter's requested-region overrides, whose bodies are in `itkForward1DFFTImageFilter.hxx`, which this model does not cover.
- `Spectra1DSupportWindowImageFilter`: its window construction is in a file that is not part of this model.
- The curvilinear-array reader test does file I/O and floating-point geometry comparisons, so it is left out.
- Multithreading, streaming concurrency, `PrintSelf` and run-time type information are left out.
